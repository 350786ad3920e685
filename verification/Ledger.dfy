/** The whole ledger: heads, identities and money move together. The supply is the mass counter,
    up to what the code creates without counting it. */
module Ledger {
  import opened Amounts
  import opened Outcomes
  import opened Sources
  import opened SourceSums
  import opened Money
  import opened MoneySteps
  import opened MoneyRuns
  import opened DoubleSpend
  import opened Identities
  import opened Membership
  import opened Wot
  import opened WotRevert
  import opened WotLinks
  import Heads
  import HeadRuns

  /** A run: block `i` takes the state before it, at index `i`, to the state at index `i + 1`. */
  datatype Run = Run(
    conf: Heads.Conf, incoming: seq<Heads.Incoming>, heads: seq<Heads.Head>,
    idty: seq<IdtyBlock>, marks: seq<seq<IRow>>, certs: seq<seq<CRow>>, webs: seq<Web>,
    trace: Trace, hashed: map<string, set<SourceKey>>)

  ghost predicate Shaped(l: Run) {
    var n := |l.incoming|;
    && |l.heads| == n && |l.idty| == n && |l.marks| == n && |l.certs| == n && |l.webs| == n + 1
    && |l.trace.blocks| == n && WellFormed(l.trace)
  }

  function DividendOf(h: Heads.Head): Option<BasedAmount> {
    if h.newDividend.Some? && h.newDividend.value > 0 then Some(BasedAmount(h.newDividend.value, h.unitBase)) else None
  }

  /** The members flagged when the dividend is produced. */
  ghost function ProducersOf(w: Web, b: IdtyBlock): set<string> {
    var flags := Flagged(w.flags, Pubs(LocalIRows(b)), true);
    set p | p in flags && flags[p]
  }

  /** Block `b`, numbered `i`, is accepted on the identity side and saved. */
  ghost predicate IdentityStepOn(w: Web, i: nat, b: IdtyBlock, marks: seq<IRow>, certs: seq<CRow>, after: Web) {
    && b.number == i && IdtyRules(w.log, b) && ExclusionRules(w.log, b) && KnownJoiners(w, b)
    && (forall j | 0 <= j < |marks| :: Has(w.log + LocalIRows(b), marks[j].pub))
    && Saved(w, b, marks, certs, after) && CertRules(w, certs, after.ids)
  }

  /** Block `b`, numbered `i`, is accepted on the money side and saved. */
  ghost predicate MoneyStepOn(
      s: Store, hashed: map<string, set<SourceKey>>, i: nat, h: Heads.Head, w: Web, idty: IdtyBlock,
      b: MoneyBlock, dividends: seq<SRow>, garbage: seq<SRow>, after: Store)
  {
    && b.number == i && b.dividend == DividendOf(h) && b.unitBase == h.unitBase
    && b.producers == ProducersOf(w, idty)
    && FitTxs(s, hashed, b)
    && Step(s, b, dividends, garbage, after)
  }

  ghost predicate CountedIn(incoming: Heads.Incoming, idty: IdtyBlock) {
    incoming.joined == CountWith(LocalIRows(idty), true) && incoming.left == CountWith(LocalIRows(idty), false)
  }

  ghost predicate IdentityStep(l: Run, i: nat)
    requires Shaped(l) && i < |l.incoming|
  {
    IdentityStepOn(l.webs[i], i, l.idty[i], l.marks[i], l.certs[i], l.webs[i + 1])
  }

  ghost predicate MoneyStep(l: Run, i: nat)
    requires Shaped(l) && i < |l.incoming|
  {
    MoneyStepOn(l.trace.stores[i], l.hashed, i, l.heads[i], l.webs[i], l.idty[i],
                l.trace.blocks[i], l.trace.dividends[i], l.trace.garbage[i], l.trace.stores[i + 1])
  }

  ghost predicate Counted(l: Run, i: nat)
    requires Shaped(l) && i < |l.incoming|
  {
    CountedIn(l.incoming[i], l.idty[i])
  }

  const NO_WEB := Web([], [], [], [], map[], {}, map[])

  /** A run of accepted blocks from the empty ledger. */
  ghost predicate LedgerRun(l: Run) {
    && Shaped(l) && Heads.Run(l.conf, l.incoming, l.heads)
    && l.webs[0] == NO_WEB && l.trace.stores[0] == EMPTY
    && forall i | 0 <= i < |l.incoming| :: IdentityStep(l, i) && MoneyStep(l, i) && Counted(l, i)
  }

  // ---- Identities along the run ----

  lemma EmptyWebIsSound()
    ensures SoundWeb(NO_WEB, 0)
  {}

  lemma StaysSoundWeb(w: Web, i: nat, b: IdtyBlock, marks: seq<IRow>, certs: seq<CRow>, after: Web)
    requires SoundWeb(w, i) && IdentityStepOn(w, i, b, marks, certs, after)
    ensures SoundWeb(after, i + 1)
    ensures SoundLinks(w) ==> SoundLinks(after)
  {
    SavedIsSound(w, b, marks, certs, after);
    if SoundLinks(w) {
      LinksStaySound(w, b, marks, certs, after);
    }
  }

  lemma {:induction false} WebIsSound(l: Run, i: nat)
    requires LedgerRun(l) && i <= |l.incoming|
    ensures SoundWeb(l.webs[i], i)
    decreases i
  {
    if i == 0 {
      EmptyWebIsSound();
    } else {
      var j := i - 1;
      WebIsSound(l, j);
      assert IdentityStep(l, j);
      StaysSoundWeb(l.webs[j], j, l.idty[j], l.marks[j], l.certs[j], l.webs[i]);
    }
  }

  /** The links are the valid certifications. */
  lemma {:induction false} LinksAreSound(l: Run, i: nat)
    requires LedgerRun(l) && i <= |l.incoming|
    ensures SoundLinks(l.webs[i])
    decreases i
  {
    if i > 0 {
      var j := i - 1;
      LinksAreSound(l, j);
      WebIsSound(l, j);
      assert IdentityStep(l, j);
      StaysSoundWeb(l.webs[j], j, l.idty[j], l.marks[j], l.certs[j], l.webs[i]);
    }
  }

  lemma HeadCount(l: Run, i: nat)
    requires LedgerRun(l) && i < |l.incoming|
    ensures l.heads[i].membersCount ==
            if i == 0 then l.incoming[i].joined
            else l.heads[i - 1].membersCount + l.incoming[i].joined - l.incoming[i].left
  {
    HeadRuns.HeadAfter(l.conf, l.incoming, l.heads, i);
  }

  lemma MembersStep(l: Run, i: nat)
    requires LedgerRun(l) && i < |l.incoming|
    ensures |Members(l.webs[i + 1].log)| == |Members(l.webs[i].log)| + l.incoming[i].joined - l.incoming[i].left
  {
    assert IdentityStep(l, i) && Counted(l, i);
    CountAfter(l.webs[i].log, l.idty[i], l.marks[i]);
  }

  lemma NoMemberAtFirst(l: Run)
    requires LedgerRun(l)
    ensures Members(l.webs[0].log) == {}
    ensures |l.incoming| > 0 ==> l.incoming[0].left == 0
  {
    if |l.incoming| > 0 {
      assert IdentityStep(l, 0) && Counted(l, 0);
      CountAfter(l.webs[0].log, l.idty[0], l.marks[0]);
    }
  }

  /** The head counts the members. */
  lemma {:induction false} HeadCountsMembers(l: Run, i: nat)
    requires LedgerRun(l) && i < |l.incoming|
    ensures l.heads[i].membersCount == |Members(l.webs[i + 1].log)|
    decreases i
  {
    HeadCount(l, i);
    MembersStep(l, i);
    if i > 0 {
      HeadCountsMembers(l, i - 1);
    } else {
      NoMemberAtFirst(l);
    }
  }

  lemma ProducersCount(l: Run, i: nat)
    requires LedgerRun(l) && i < |l.incoming|
    ensures |l.trace.blocks[i].producers| == l.heads[i].membersCount + |ToSet(l.idty[i].excluded)|
  {
    assert IdentityStep(l, i) && MoneyStep(l, i);
    WebIsSound(l, i);
    HeadCountsMembers(l, i);
    ProducersAre(l.webs[i], l.idty[i], l.marks[i], l.trace.blocks[i].producers);
  }

  // ---- Money along the run ----

  lemma DividendBounds(l: Run, i: nat)
    requires LedgerRun(l) && i < |l.incoming|
    ensures l.heads[i].newDividend.Some? ==> l.heads[i].newDividend.value == l.heads[i].dividend
    ensures i == 0 ==> l.heads[i].dividend == Heads.ShiftedDividend(l.conf.ud0)
    ensures i > 0 ==> exists based: nat ::
              based >= l.heads[i - 1].dividend && l.heads[i].dividend == Heads.ShiftedDividend(based)
    ensures i > 0 && l.heads[i].udTime != l.heads[i - 1].udTime ==> l.heads[i].newDividend.Some?
  {
    if i == 0 {
      HeadRuns.HeadAfter(l.conf, l.incoming, l.heads, i);
    } else {
      var based := HeadRuns.DividendStep(l.conf, l.incoming, l.heads, i);
    }
  }

  lemma {:induction false} HeadDividendIsEnough(
      conf: Heads.Conf, blocks: seq<Heads.Incoming>, heads: seq<Heads.Head>, i: nat)
    requires Heads.Run(conf, blocks, heads) && i < |heads| && conf.ud0 >= ACCOUNT_MINIMUM
    ensures heads[i].dividend >= ACCOUNT_MINIMUM
    ensures heads[i].newDividend.Some? ==> heads[i].newDividend.value == heads[i].dividend
    decreases i
  {
    assert Pow10(4) == 10000 by {
      assert Pow10(1) == 10 && Pow10(2) == 100 && Pow10(3) == 1000;
    }
    if i == 0 {
      HeadRuns.HeadAfter(conf, blocks, heads, i);
    } else {
      HeadDividendIsEnough(conf, blocks, heads, i - 1);
      var based := HeadRuns.DividendStep(conf, blocks, heads, i);
    }
  }

  /** A first dividend of at least the account minimum keeps every dividend there. */
  lemma DividendIsEnough(l: Run, i: nat)
    requires LedgerRun(l) && i < |l.incoming| && l.conf.ud0 >= ACCOUNT_MINIMUM
    ensures l.heads[i].dividend >= ACCOUNT_MINIMUM
  {
    HeadDividendIsEnough(l.conf, l.incoming, l.heads, i);
  }

  lemma IsMoneyRun(l: Run)
    requires LedgerRun(l) && l.conf.ud0 >= ACCOUNT_MINIMUM
    ensures MoneyRun(l.trace, l.hashed)
  {
    forall i | 0 <= i < |l.trace.blocks| ensures RunStep(l.trace, l.hashed, i) {
      assert MoneyStep(l, i);
      DividendIsEnough(l, i);
      DividendBounds(l, i);
    }
  }

  /** What block `i` creates beyond what the mass counts: a dividend of every producer when the unit
      base shifts outside the schedule, a dividend of each excluded member otherwise. */
  ghost function Uncounted(l: Run, i: nat): nat
    requires Shaped(l) && i < |l.incoming|
  {
    var h := l.heads[i];
    if h.newDividend.None? then 0
    else if HeadRuns.UdStep(l.heads, i) then Minted(h, |ToSet(l.idty[i].excluded)|)
    else Minted(h, |l.trace.blocks[i].producers|)
  }

  function Minted(h: Heads.Head, count: nat): nat {
    h.dividend * Pow10(h.unitBase) * count
  }

  ghost function UncountedUpTo(l: Run, i: nat): nat
    requires Shaped(l) && i <= |l.incoming|
  {
    if i == 0 then 0 else UncountedUpTo(l, i - 1) + Uncounted(l, i - 1)
  }

  /** What the garbage rule consumed before block `i`. */
  ghost function GarbagedUpTo(l: Run, i: nat): nat
    requires Shaped(l) && i <= |l.incoming|
  {
    if i == 0 then 0 else GarbagedUpTo(l, i - 1) + RowSum(l.trace.garbage[i - 1], None)
  }

  ghost function MassBefore(l: Run, i: nat): nat
    requires Shaped(l) && i <= |l.incoming|
  {
    if i == 0 then 0 else l.heads[i - 1].mass
  }

  lemma MintedParts(h: Heads.Head, a: nat, b: nat)
    ensures Minted(h, a + b) == Minted(h, a) + Minted(h, b)
  {}

  lemma MassStep(l: Run, i: nat)
    requires LedgerRun(l) && i < |l.incoming|
    ensures l.heads[i].mass ==
            MassBefore(l, i) + if HeadRuns.UdStep(l.heads, i) then Minted(l.heads[i], l.heads[i].membersCount) else 0
  {
    HeadRuns.HeadAfter(l.conf, l.incoming, l.heads, i);
  }

  /** What is minted by a block: what the mass counts, and what it does not. */
  lemma MintedByBlock(l: Run, i: nat)
    requires LedgerRun(l) && i < |l.incoming| && l.conf.ud0 >= ACCOUNT_MINIMUM
    ensures RowSum(l.trace.dividends[i], None) ==
            (if HeadRuns.UdStep(l.heads, i) then Minted(l.heads[i], l.heads[i].membersCount) else 0) + Uncounted(l, i)
  {
    assert MoneyStep(l, i);
    var h, b := l.heads[i], l.trace.blocks[i];
    DividendWorth(b, l.trace.dividends[i]);
    DividendIsEnough(l, i);
    DividendBounds(l, i);
    ProducersCount(l, i);
    MintedSplit(h, |b.producers|, h.membersCount, |ToSet(l.idty[i].excluded)|);
  }

  lemma MintedSplit(h: Heads.Head, producers: nat, members: nat, excluded: nat)
    requires producers == members + excluded
    ensures producers * (h.dividend * Pow10(h.unitBase)) == Minted(h, producers)
    ensures Minted(h, producers) == Minted(h, members) + Minted(h, excluded)
  {
    Commute(producers, h.dividend * Pow10(h.unitBase));
    MintedParts(h, members, excluded);
  }

  lemma Commute(a: nat, b: nat)
    ensures a * b == b * a
  {}

  lemma SupplyStep(l: Run, i: nat)
    requires LedgerRun(l) && i < |l.incoming| && l.conf.ud0 >= ACCOUNT_MINIMUM
    ensures Supply(l.trace.stores[i + 1]) + RowSum(l.trace.garbage[i], None) ==
            Supply(l.trace.stores[i]) + RowSum(l.trace.dividends[i], None)
  {
    IsMoneyRun(l);
    AppliedAt(l.trace, l.hashed, i);
    SupplyAfter(l.trace.stores[i], l.hashed, l.trace.blocks[i], l.trace.dividends[i], l.trace.garbage[i],
                l.trace.stores[i + 1]);
  }

  /** The account of the money, in every reachable state: available and garbaged money is the mass
      of the head and what was created uncounted. */
  lemma {:induction false} MoneyIsAccountedFor(l: Run, i: nat)
    requires LedgerRun(l) && i <= |l.incoming| && l.conf.ud0 >= ACCOUNT_MINIMUM
    ensures Supply(l.trace.stores[i]) + GarbagedUpTo(l, i) == MassBefore(l, i) + UncountedUpTo(l, i)
    decreases i
  {
    if i == 0 {
      assert Available(EMPTY) == map[];
    } else {
      MoneyIsAccountedFor(l, i - 1);
      SupplyStep(l, i - 1);
      MintedByBlock(l, i - 1);
      MassStep(l, i - 1);
    }
  }

  /** A block that creates nothing uncounted: it excludes nobody when it pays the dividend in due
      time, and announces none (but to nobody) at another time. */
  ghost predicate Regular(l: Run, i: nat)
    requires Shaped(l) && i < |l.incoming|
  {
    l.heads[i].newDividend.Some? ==>
      if HeadRuns.UdStep(l.heads, i) then l.idty[i].excluded == [] else l.trace.blocks[i].producers == {}
  }

  lemma MintedIsPositive(h: Heads.Head, count: nat)
    requires h.dividend > 0
    ensures Minted(h, count) == 0 <==> count == 0
  {}

  lemma RegularMeans(l: Run, i: nat)
    requires LedgerRun(l) && i < |l.incoming| && l.conf.ud0 >= ACCOUNT_MINIMUM
    ensures Regular(l, i) <==> Uncounted(l, i) == 0
  {
    DividendIsEnough(l, i);
    var excluded := l.idty[i].excluded;
    if excluded != [] { assert excluded[0] in ToSet(excluded); }
    MintedIsPositive(l.heads[i], |ToSet(excluded)|);
    MintedIsPositive(l.heads[i], |l.trace.blocks[i].producers|);
  }

  lemma {:induction false} NothingUncounted(l: Run, i: nat)
    requires LedgerRun(l) && i <= |l.incoming| && l.conf.ud0 >= ACCOUNT_MINIMUM
    ensures UncountedUpTo(l, i) == 0 <==> forall k | 0 <= k < i :: Regular(l, k)
    decreases i
  {
    if i > 0 {
      NothingUncounted(l, i - 1);
      RegularMeans(l, i - 1);
    }
  }

  /** Conservation of money: after every block, available and garbaged money is the mass of the
      head, if and only if every block so far was regular. */
  lemma MoneyIsConserved(l: Run, i: nat)
    requires LedgerRun(l) && i <= |l.incoming| && l.conf.ud0 >= ACCOUNT_MINIMUM
    ensures Supply(l.trace.stores[i]) + GarbagedUpTo(l, i) == MassBefore(l, i) <==>
            forall k | 0 <= k < i :: Regular(l, k)
  {
    MoneyIsAccountedFor(l, i);
    NothingUncounted(l, i);
  }
}
