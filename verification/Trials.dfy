/** What trying side chains on the main chain yields, as functions of the chain and of
    the verdict: the reference the switching loops are proved against. */
module Trials {
  import opened Outcomes
  import opened ForkStore

  /** How many blocks of `s` can be added one after the other on top of `base`. */
  function AcceptedLength(verdict: Verdict, base: seq<Block>, s: seq<Block>): (n: nat)
    ensures n <= |s|
    decreases |s|
  {
    if s == [] || !Acceptable(verdict, base, s[0]) then 0
    else 1 + AcceptedLength(verdict, base + [s[0]], s[1..])
  }

  /** The main chain below the first block of the ascending side chain `s`. */
  function Base(chain: seq<Block>, s: seq<Block>): seq<Block>
    requires Hangs(chain, s)
  {
    chain[..s[0].number]
  }

  /** `s`, in ascending order, starts right above a block of the main chain. */
  predicate Hangs(chain: seq<Block>, s: seq<Block>) {
    s != [] && 1 <= s[0].number <= |chain|
  }

  predicate AllHang(chain: seq<Block>, suites: seq<seq<Block>>) {
    forall s | s in suites :: Hangs(chain, s)
  }

  /** The part of `s` that the chain takes. */
  function Taken(verdict: Verdict, chain: seq<Block>, s: seq<Block>): seq<Block>
    requires Hangs(chain, s)
  {
    s[..AcceptedLength(verdict, Base(chain, s), s)]
  }

  /** The blockstamps that trying `s` marks: the refused block first, then the accepted ones. */
  function Marks(verdict: Verdict, chain: seq<Block>, s: seq<Block>): seq<Stamp>
    requires Hangs(chain, s)
  {
    MarksAt(s, AcceptedLength(verdict, Base(chain, s), s))
  }

  function MarksAt(s: seq<Block>, n: nat): seq<Stamp>
    requires n <= |s|
  {
    (if n < |s| then [Blockstamp(s[n])] else []) + Stamps(s[..n])
  }

  function Stamps(s: seq<Block>): (r: seq<Stamp>)
    ensures |r| == |s|
  {
    seq(|s|, i requires 0 <= i < |s| => Blockstamp(s[i]))
  }

  /** What the chain takes of each suite, every suite being tried on the same chain. */
  function Trial(verdict: Verdict, chain: seq<Block>, suites: seq<seq<Block>>): (r: seq<seq<Block>>)
    requires AllHang(chain, suites)
    ensures |r| == |suites|
  {
    seq(|suites|, i requires 0 <= i < |suites| => Taken(verdict, chain, suites[i]))
  }

  /** The best of two outcomes: the highest head wins, the first one on ties. */
  function Better(best: Option<seq<Block>>, found: seq<Block>): Option<seq<Block>>
    requires best.Some? ==> best.value != []
  {
    if found == [] then best
    else if best.None? || Height(best.value) < Height(found) then Some(found)
    else best
  }

  /** The number of the last block of an outcome, if any. */
  function Height(found: seq<Block>): int {
    if found == [] then -1 else found[|found| - 1].number
  }

  function Best(outcomes: seq<seq<Block>>): (best: Option<seq<Block>>)
    ensures best.Some? ==> best.value != []
  {
    if outcomes == [] then None
    else
      var n := |outcomes| - 1;
      Better(Best(outcomes[..n]), outcomes[n])
  }

  function AllMarks(verdict: Verdict, chain: seq<Block>, suites: seq<seq<Block>>): seq<Stamp>
    requires AllHang(chain, suites)
  {
    if suites == [] then []
    else
      var n := |suites| - 1;
      AllMarks(verdict, chain, suites[..n]) + Marks(verdict, chain, suites[n])
  }

  /** `n` is the accepted length exactly when the first `n` blocks can be added and the next
      one cannot. */
  lemma {:induction false} AcceptedLengthMeans(verdict: Verdict, base: seq<Block>, s: seq<Block>, n: nat)
    requires n <= |s|
    ensures n == AcceptedLength(verdict, base, s) <==>
            && (forall i | 0 <= i < n :: Acceptable(verdict, base + s[..i], s[i]))
            && (n < |s| ==> !Acceptable(verdict, base + s[..n], s[n]))
    decreases |s|
  {
    assert base + s[..0] == base;
    if s != [] && Acceptable(verdict, base, s[0]) {
      var base', s' := base + [s[0]], s[1..];
      assert forall i | 0 <= i < |s| :: base + s[..i + 1] == base' + s'[..i];
      if n > 0 {
        AcceptedLengthMeans(verdict, base', s', n - 1);
        assert forall i | 0 <= i < |s'| :: s'[i] == s[i + 1];
        if forall i | 0 <= i < n - 1 :: Acceptable(verdict, base' + s'[..i], s'[i]) {
          forall i | 0 <= i < n ensures Acceptable(verdict, base + s[..i], s[i]) {
            if i > 0 { assert Acceptable(verdict, base' + s'[..i - 1], s'[i - 1]); }
          }
        } else {
          var i :| 0 <= i < n - 1 && !Acceptable(verdict, base' + s'[..i], s'[i]);
          assert !Acceptable(verdict, base + s[..i + 1], s[i + 1]);
        }
      }
    } else if n > 0 {
      assert !Acceptable(verdict, base + s[..0], s[0]);
    }
  }

  lemma {:induction false} TakenIsAcceptable(verdict: Verdict, base: seq<Block>, s: seq<Block>, n: nat)
    requires n < AcceptedLength(verdict, base, s)
    ensures Acceptable(verdict, base + s[..n], s[n])
  {
    AcceptedLengthMeans(verdict, base, s, AcceptedLength(verdict, base, s));
  }

  /** The blockstamps that trying one side chain marks: those of the blocks that it is accepted up to, and
      of the first refused one. */
  lemma MarkedByOne(verdict: Verdict, chain: seq<Block>, s: seq<Block>, m: Stamp)
    requires Hangs(chain, s)
    ensures m in Marks(verdict, chain, s) <==>
            exists i | 0 <= i < |s| ::
              && m == (s[i].number, s[i].hash)
              && forall j | 0 <= j < i :: Acceptable(verdict, chain[..s[0].number] + s[..j], s[j])
  {
    var base := chain[..s[0].number];
    var n := AcceptedLength(verdict, base, s);
    AcceptedLengthMeans(verdict, base, s, n);
    if m in Marks(verdict, chain, s) {
      var i := MarkedAt(s, n, m);
      assert m == (s[i].number, s[i].hash);
    }
    if i :| 0 <= i < |s| && m == (s[i].number, s[i].hash)
            && forall j | 0 <= j < i :: Acceptable(verdict, chain[..s[0].number] + s[..j], s[j]) {
      if i < n {
        assert Stamps(s[..n])[i] == m;
      } else {
        assert i == n;
      }
    }
  }

  lemma MarkedAt(s: seq<Block>, n: nat, m: Stamp) returns (i: nat)
    requires n <= |s| && m in MarksAt(s, n)
    ensures i < |s| && i <= n && m == Blockstamp(s[i])
  {
    if m in Stamps(s[..n]) {
      i :| 0 <= i < n && Stamps(s[..n])[i] == m;
    } else {
      i := n;
    }
  }

  /** The blockstamps that a resolution marks. */
  lemma {:induction false} MarkedByAll(verdict: Verdict, chain: seq<Block>, suites: seq<seq<Block>>, m: Stamp)
    requires AllHang(chain, suites)
    ensures m in AllMarks(verdict, chain, suites) <==> exists s | s in suites :: m in Marks(verdict, chain, s)
  {
    if suites != [] {
      var n := |suites| - 1;
      assert suites == suites[..n] + [suites[n]];
      MarkedByAll(verdict, chain, suites[..n], m);
    }
  }

  /** What the chain takes leaves an accepted chain, at every step. */
  lemma {:induction false} TakenIsAccepted(verdict: Verdict, base: seq<Block>, s: seq<Block>, n: nat)
    requires AcceptedChain(verdict, base)
    requires n <= AcceptedLength(verdict, base, s)
    ensures AcceptedChain(verdict, base + s[..n])
    decreases n
  {
    if n == 0 {
      assert base + s[..0] == base;
    } else {
      var before, b := base + s[..n - 1], s[n - 1];
      assert Acceptable(verdict, before, b) by { TakenIsAcceptable(verdict, base, s, n - 1); }
      assert AcceptedChain(verdict, before) by { TakenIsAccepted(verdict, base, s, n - 1); }
      assert base + s[..n] == before + [b];
      AcceptedExtension(verdict, before, b);
    }
  }

  /** The suites as they are tried: lowest block first. */
  function Ascending(suites: seq<seq<Block>>): (r: seq<seq<Block>>)
    ensures |r| == |suites|
  {
    seq(|suites|, i requires 0 <= i < |suites| => Reversed(suites[i]))
  }

  ghost predicate FirstHighest(outcomes: seq<seq<Block>>, k: nat)
    requires k < |outcomes|
  {
    && (forall j | 0 <= j < |outcomes| :: Height(outcomes[j]) <= Height(outcomes[k]))
    && (forall j | 0 <= j < k :: Height(outcomes[j]) < Height(outcomes[k]))
  }

  /** `Best` is nothing exactly when no suite has an acceptable first block. */
  lemma BestIsNothing(verdict: Verdict, chain: seq<Block>, suites: seq<seq<Block>>)
    requires AllHang(chain, suites)
    ensures Best(Trial(verdict, chain, suites)).None? <==>
            forall s | s in suites :: !Acceptable(verdict, Base(chain, s), s[0])
  {
    var outcomes := Trial(verdict, chain, suites);
    NothingIsEmpty(outcomes);
    forall k | 0 <= k < |suites|
      ensures suites[k] in suites
      ensures outcomes[k] == [] <==> !Acceptable(verdict, Base(chain, suites[k]), suites[k][0])
    {
      assert suites[k] in suites;
      assert outcomes[k] == Taken(verdict, chain, suites[k]);
      assert AcceptedLength(verdict, Base(chain, suites[k]), suites[k]) == 0 <==>
             !Acceptable(verdict, Base(chain, suites[k]), suites[k][0]);
    }
  }

  lemma {:induction false} NothingIsEmpty(outcomes: seq<seq<Block>>)
    ensures Best(outcomes).None? <==> forall k | 0 <= k < |outcomes| :: outcomes[k] == []
  {
    if outcomes != [] {
      NothingIsEmpty(outcomes[..|outcomes| - 1]);
    }
  }

  /** Otherwise it is the first outcome that reaches the greatest height. */
  lemma {:induction false} BestIsFirstHighest(outcomes: seq<seq<Block>>) returns (k: nat)
    requires Best(outcomes).Some?
    ensures k < |outcomes|
    ensures Best(outcomes).value == outcomes[k]
    ensures FirstHighest(outcomes, k)
    ensures forall j | 0 <= j < |outcomes| && outcomes[j] != [] ::
              var head, highest := outcomes[j][|outcomes[j]| - 1], outcomes[k][|outcomes[k]| - 1];
              head.number <= highest.number && (j < k ==> head.number < highest.number)
  {
    var n := |outcomes| - 1;
    var front := outcomes[..n];
    if Best(front).None? {
      NothingIsEmpty(front);
      k := n;
    } else {
      k := BestIsFirstHighest(front);
      if Height(front[k]) < Height(outcomes[n]) {
        k := n;
      }
    }
    assert forall j | 0 <= j < n :: outcomes[j] == front[j];
  }
}
