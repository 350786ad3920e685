/** The second computation of the money supply: the `monetaryMass` stored with every block, next
    to the mass of the head. */
module MonetaryMass {
  import opened Amounts
  import opened Outcomes
  import opened Heads
  import opened HeadRuns

  datatype Stored = Stored(unitbase: nat, monetaryMass: nat)

  function ComputedVars(current: Option<Stored>, dividend: Option<nat>, unitbase: nat, membersCount: nat): Stored {
    var base :=
      if dividend.Some? && dividend.value > 0 && unitbase > 0 then unitbase
      else if current.Some? then current.value.unitbase
      else 0;
    var minted := if dividend.Some? then dividend.value else 0;
    Stored(base, if current.Some? then current.value.monetaryMass + minted * Pow10(base) * membersCount else 0)
  }

  /** The fields of a stored block that `updateBlocksComputedVars` reads and assigns. */
  class DBBlock {
    var number: nat
    var unitbase: nat
    var dividend: Option<nat>
    var membersCount: nat
    var monetaryMass: nat

    /** A block that obeys BR_G58, BR_G59 and BR_G60 has the values of the head. */
    constructor (h: Head)
      ensures number == h.number && unitbase == h.unitBase && dividend == h.newDividend
      ensures membersCount == h.membersCount
    {
      number, unitbase, dividend, membersCount := h.number, h.unitBase, h.newDividend, h.membersCount;
    }

    /** `updateBlocksComputedVars`: a missing or zero dividend hides the block's own unit base. */
    method UpdateComputedVars(current: Option<Stored>)
      modifies this`unitbase, this`monetaryMass, this`dividend
      ensures Stored(unitbase, monetaryMass) ==
              ComputedVars(current, old(dividend), old(unitbase), membersCount)
      ensures unitbase ==
              if old(dividend).Some? && old(dividend).value > 0 && old(unitbase) > 0 then old(unitbase)
              else if current.Some? then current.value.unitbase
              else 0
      ensures monetaryMass ==
              if current.None? then 0
              else
                current.value.monetaryMass
                + (if old(dividend).Some? then old(dividend).value else 0) * Pow10(unitbase) * membersCount
      ensures dividend == if number == 0 || old(dividend) == Some(0) then None else old(dividend)
    {
      if !(dividend.Some? && dividend.value > 0 && unitbase > 0) {
        unitbase := if current.Some? then current.value.unitbase else 0;
      }
      if current.Some? {
        var minted := if dividend.Some? then dividend.value else 0;
        monetaryMass := current.value.monetaryMass + minted * Pow10(unitbase) * membersCount;
      } else {
        monetaryMass := 0;
      }
      if number == 0 {
        dividend := None;
      } else if dividend.None? || dividend.value == 0 {
        dividend := None;
      }
    }
  }

  function Issued(h: Head): nat {
    (if h.newDividend.Some? then h.newDividend.value else 0) * Pow10(h.unitBase) * h.membersCount
  }

  ghost predicate StoredAt(heads: seq<Head>, stored: seq<Stored>, i: nat)
    requires i < |heads| && i < |stored|
  {
    stored[i] == ComputedVars(if i == 0 then None else Some(stored[i - 1]),
                              heads[i].newDividend, heads[i].unitBase, heads[i].membersCount)
  }

  /** What is stored with the blocks of a run that obey BR_G58 to BR_G60. */
  ghost predicate StoredRun(heads: seq<Head>, stored: seq<Stored>) {
    |stored| == |heads| && forall i | 0 <= i < |heads| :: StoredAt(heads, stored, i)
  }

  /** A block that shifts the unit base without producing a dividend: BR_G14 announces a dividend
      that BR_G15 does not add to the mass. */
  ghost predicate UnalignedShift(heads: seq<Head>, i: nat)
    requires i < |heads|
  {
    i > 0 && heads[i].udTime == heads[i - 1].udTime && heads[i].unitBase != heads[i - 1].unitBase
  }

  /** What the unaligned shifts up to block `i` announce. */
  ghost function Drift(heads: seq<Head>, i: nat): nat
    requires i < |heads|
  {
    if i == 0 then 0
    else Drift(heads, i - 1) + if UnalignedShift(heads, i) then Issued(heads[i]) else 0
  }

  lemma BaseOf(conf: Conf, blocks: seq<Incoming>, heads: seq<Head>, i: nat)
    requires Run(conf, blocks, heads) && i < |heads|
    ensures i == 0 && heads[i].unitBase > 0 ==> heads[i].newDividend.Some? && heads[i].newDividend.value > 0
    ensures i > 0 ==> heads[i - 1].unitBase <= heads[i].unitBase
    ensures i > 0 && heads[i - 1].unitBase != heads[i].unitBase ==>
              heads[i].newDividend.Some? && heads[i].newDividend.value > 0
    ensures i > 0 && heads[i].udTime == heads[i - 1].udTime && heads[i].unitBase == heads[i - 1].unitBase ==>
              heads[i].newDividend.None?
    ensures i > 0 && heads[i].udTime != heads[i - 1].udTime ==> heads[i].newDividend == Some(heads[i].dividend)
  {
    if i == 0 {
      HeadAfter(conf, blocks, heads, 0);
    } else {
      var based := DividendStep(conf, blocks, heads, i);
    }
  }

  lemma MassStep(conf: Conf, blocks: seq<Incoming>, heads: seq<Head>, i: nat)
    requires Run(conf, blocks, heads) && i < |heads|
    ensures i == 0 ==> heads[i].mass == 0
    ensures i > 0 ==>
              heads[i].mass ==
              Mass(heads[i - 1], heads[i].udTime, heads[i].dividend, heads[i].unitBase, heads[i].membersCount)
  {
    HeadAfter(conf, blocks, heads, i);
  }

  /** The stored unit base is the head's, and the stored mass exceeds the head's by the drift. */
  lemma {:induction false} StoredMass(
      conf: Conf, blocks: seq<Incoming>, heads: seq<Head>, stored: seq<Stored>, i: nat)
    requires Run(conf, blocks, heads) && StoredRun(heads, stored) && i < |heads|
    ensures stored[i].unitbase == heads[i].unitBase
    ensures stored[i].monetaryMass == heads[i].mass + Drift(heads, i)
  {
    assert StoredAt(heads, stored, i);
    BaseOf(conf, blocks, heads, i);
    MassStep(conf, blocks, heads, i);
    if i > 0 {
      StoredMass(conf, blocks, heads, stored, i - 1);
    }
  }

  lemma IssuedIsPositive(conf: Conf, blocks: seq<Incoming>, heads: seq<Head>, i: nat)
    requires Run(conf, blocks, heads) && i < |heads| && UnalignedShift(heads, i) && heads[i].membersCount > 0
    ensures Issued(heads[i]) > 0
  {
    BaseOf(conf, blocks, heads, i);
    Positive(heads[i].newDividend.value, Pow10(heads[i].unitBase));
    Positive(heads[i].newDividend.value * Pow10(heads[i].unitBase), heads[i].membersCount);
  }

  lemma Positive(a: nat, b: nat)
    requires a > 0 && b > 0
    ensures a * b > 0
  {}

  lemma {:induction false} DriftGrows(heads: seq<Head>, i: nat, j: nat)
    requires i <= j < |heads|
    ensures Drift(heads, i) <= Drift(heads, j)
    ensures (forall k | i < k <= j :: UnalignedShift(heads, k) ==> heads[k].membersCount == 0) ==>
              Drift(heads, i) == Drift(heads, j)
  {
    if i < j {
      DriftGrows(heads, i, j - 1);
    }
  }

  /** The two computations agree all along a run exactly when no block with members shifts the
      unit base without producing a dividend. */
  lemma MassesAgree(conf: Conf, blocks: seq<Incoming>, heads: seq<Head>, stored: seq<Stored>)
    requires Run(conf, blocks, heads) && StoredRun(heads, stored)
    ensures (forall i | 0 <= i < |heads| :: stored[i].monetaryMass == heads[i].mass) <==>
            (forall i | 0 <= i < |heads| :: UnalignedShift(heads, i) ==> heads[i].membersCount == 0)
  {
    forall i | 0 <= i < |heads|
      ensures stored[i].monetaryMass == heads[i].mass + Drift(heads, i)
      ensures UnalignedShift(heads, i) && heads[i].membersCount > 0 ==> Drift(heads, i) > 0
    {
      StoredMass(conf, blocks, heads, stored, i);
      if UnalignedShift(heads, i) && heads[i].membersCount > 0 {
        IssuedIsPositive(conf, blocks, heads, i);
      }
    }
    if forall i | 0 <= i < |heads| :: UnalignedShift(heads, i) ==> heads[i].membersCount == 0 {
      forall i | 0 <= i < |heads| ensures Drift(heads, i) == 0 {
        DriftGrows(heads, 0, i);
      }
    }
  }

  // ---- When a shift is unaligned ----

  /** The guard of an unaligned shift, on the head before and the block: no dividend is due, and the
      dividend, re-evaluated if that is due, has more than four digits. */
  ghost predicate ShiftsOutOfTurn(conf: Conf, bindex: seq<Head>, b: Incoming)
    requires Admissible(conf, bindex, b) && bindex != []
  {
    var last, medianTime := Last(bindex), MedianTime(conf, bindex, b.time);
    && medianTime < last.udTime
    && Shifts(BaseDividend(conf, last, NextDue(last.udReevalTime, conf.dtReeval, medianTime),
                           last.membersCount + b.joined - b.left))
  }

  lemma UnalignedShiftMeans(conf: Conf, blocks: seq<Incoming>, heads: seq<Head>, i: nat)
    requires Run(conf, blocks, heads) && 0 < i < |heads|
    ensures Admissible(conf, heads[..i], blocks[i])
    ensures UnalignedShift(heads, i) <==> ShiftsOutOfTurn(conf, heads[..i], blocks[i])
  {
    HeadAfter(conf, blocks, heads, i);
  }

  /** A configuration whose re-evaluations fall on dividends: the first one does, and so do those a
      period apart. */
  ghost predicate AlignedConf(conf: Conf) {
    && ValidConf(conf)
    && (exists k: nat :: conf.udReevalTime0 == conf.udTime0 + k * conf.dt)
    && (exists k: nat :: conf.dtReeval == k * conf.dt)
  }

  ghost predicate AlignedDues(conf: Conf, h: Head) {
    exists k: nat :: h.udReevalTime == h.udTime + k * conf.dt
  }

  lemma DuesStayAligned(due: nat, reeval: nat, dt: nat, dtReeval: nat, k: nat, m: nat, t: nat) returns (k': nat)
    requires dt > 0 && dtReeval > 0 && reeval == due + k * dt && dtReeval == m * dt
    ensures NextDue(reeval, dtReeval, t) == NextDue(due, dt, t) + k' * dt
    ensures reeval <= t ==> due <= t
  {
    assert k * dt >= 0;
    if reeval <= t {
      assert m >= 1;
      k' := k + m - 1;
      assert k' * dt == k * dt + m * dt - dt;
    } else if due <= t {
      assert k >= 1;
      k' := k - 1;
      assert k' * dt == k * dt - dt;
    } else {
      k' := k;
    }
  }

  lemma {:induction false} RunStaysAligned(conf: Conf, blocks: seq<Incoming>, heads: seq<Head>, i: nat)
    requires Run(conf, blocks, heads) && i < |heads| && AlignedConf(conf)
    ensures AlignedDues(conf, heads[i])
    ensures i > 0 && heads[i].udReevalTime != heads[i - 1].udReevalTime ==> heads[i].udTime != heads[i - 1].udTime
    decreases i
  {
    HeadAfter(conf, blocks, heads, i);
    if i > 0 {
      RunStaysAligned(conf, blocks, heads, i - 1);
      var k: nat :| heads[i - 1].udReevalTime == heads[i - 1].udTime + k * conf.dt;
      var m: nat :| conf.dtReeval == m * conf.dt;
      var k' := DuesStayAligned(heads[i - 1].udTime, heads[i - 1].udReevalTime, conf.dt, conf.dtReeval, k, m,
                                heads[i].medianTime);
    }
  }

  /** One digit at most is shifted out: no re-evaluation goes beyond 99990. */
  ghost predicate ModestGrowth(conf: Conf, heads: seq<Head>, i: nat)
    requires ValidConf(conf) && 0 < i < |heads|
  {
    && (heads[i].udReevalTime != heads[i - 1].udReevalTime ==> heads[i].membersCount > 0)
    && BaseDividend(conf, heads[i - 1], heads[i].udReevalTime, heads[i].membersCount) <= 99990
  }

  lemma {:induction false} DividendHasFourDigits(conf: Conf, blocks: seq<Incoming>, heads: seq<Head>, i: nat)
    requires Run(conf, blocks, heads) && i < |heads| && ValidConf(conf) && conf.ud0 <= 9999
    requires forall j | 0 < j < |heads| :: ModestGrowth(conf, heads, j)
    ensures !Shifts(heads[i].dividend)
    decreases i
  {
    FourDigits();
    HeadAfter(conf, blocks, heads, i);
    if i > 0 {
      assert ModestGrowth(conf, heads, i);
    }
  }

  /** With such a configuration no unaligned shift ever occurs, and the two masses agree. */
  lemma AlignedMassesAgree(conf: Conf, blocks: seq<Incoming>, heads: seq<Head>, stored: seq<Stored>)
    requires Run(conf, blocks, heads) && StoredRun(heads, stored) && AlignedConf(conf) && conf.ud0 <= 9999
    requires forall i | 0 < i < |heads| :: ModestGrowth(conf, heads, i)
    ensures forall i | 0 <= i < |heads| :: !UnalignedShift(heads, i) && stored[i].monetaryMass == heads[i].mass
  {
    forall i | 0 < i < |heads| ensures !UnalignedShift(heads, i) {
      HeadAfter(conf, blocks, heads, i);
      RunStaysAligned(conf, blocks, heads, i);
      DividendHasFourDigits(conf, blocks, heads, i - 1);
    }
    MassesAgree(conf, blocks, heads, stored);
  }

  // ---- A run where the masses part ----

  const ODD_CONF := Conf(1, 1000, 100, 1000, 10, 0, 0, 9999, 1.0)
  const IN0 := Incoming("A", 0, 0, 1, 0, 0, 0)
  const IN1 := Incoming("A", 10, 0, 0, 0, 0, 0)
  const IN2 := Incoming("A", 20, 0, 0, 0, 0, 0)
  const IN3 := Incoming("A", 30, 0, 0, 0, 0, 0)
  const H0 := Head(0, "A", 0, 0, 0, 1, 0, 1000, 0, 0, 0, 0, 1, 0, 0, 0, 9999, None, 0, 0)
  const H1 := Head(1, "A", 10, 0, 1, 1, 5, 1000, 0, 0, 0, 0, 1, 1000, 10, 0, 9999, Some(9999), 9999, 0)
  const H2 := Head(2, "A", 20, 10, 1, 2, 4, 1000, 0, 0, 0, 0, 1, 1000, 20, 0, 9999, None, 9999, 9999)
  const H3 := Head(3, "A", 30, 20, 1, 3, 3, 1000, 0, 0, 0, 0, 1, 1000, 30, 1, 100990, Some(100990), 9999, 9999)

  lemma FirstHead()
    ensures IsNextHead(ODD_CONF, [], IN0, H0)
  {
    FourDigits();
  }

  lemma SecondHead()
    ensures IsNextHead(ODD_CONF, [H0], IN1, H1)
  {
    FourDigits();
    assert [H0][..0] == [];
    assert Issuers([H0]) == {"A"};
    assert TotalTime([H0]) == 0;
    assert BaseDividend(ODD_CONF, H0, 10, 1) == 9999;
  }

  lemma ThirdHead()
    ensures IsNextHead(ODD_CONF, [H0, H1], IN2, H2)
  {
    FourDigits();
    assert Range([H0, H1], 1) == [H1] && [H1][..0] == [];
    assert Issuers([H1]) == {"A"};
    assert TotalTime([H1]) == 10;
    assert BaseDividend(ODD_CONF, H1, 20, 1) == 9999;
  }

  lemma FourthHead()
    ensures IsNextHead(ODD_CONF, [H0, H1, H2], IN3, H3)
  {
    FourDigits();
    var heads := [H0, H1, H2];
    assert Range(heads, 2) == [H1, H2] && [H1, H2][..1] == [H1] && [H1][..0] == [];
    assert Issuers([H1]) == {"A"} && Issuers([H1, H2]) == {"A"};
    assert Range(heads, 1) == [H2] && [H2][..0] == [];
    assert TotalTime([H2]) == 20;
    assert BaseDividend(ODD_CONF, H2, 30, 1) == 1009899;
  }

  const ODD_HEADS := [H0, H1, H2, H3]
  const ODD_STORED := [Stored(0, 0), Stored(0, 9999), Stored(0, 9999), Stored(1, 1019899)]

  lemma OddRun()
    ensures Run(ODD_CONF, [IN0, IN1, IN2, IN3], ODD_HEADS)
  {
    FirstHead();
    SecondHead();
    ThirdHead();
    FourthHead();
    FourHeads(ODD_CONF, IN0, H0, IN1, H1, IN2, H2, IN3, H3);
  }

  lemma FourHeads(conf: Conf, b0: Incoming, h0: Head, b1: Incoming, h1: Head, b2: Incoming, h2: Head,
                  b3: Incoming, h3: Head)
    requires IsNextHead(conf, [], b0, h0) && IsNextHead(conf, [h0], b1, h1)
    requires IsNextHead(conf, [h0, h1], b2, h2) && IsNextHead(conf, [h0, h1, h2], b3, h3)
    ensures Run(conf, [b0, b1, b2, b3], [h0, h1, h2, h3])
  {
    var heads := [h0, h1, h2, h3];
    assert heads[..0] == [] && heads[..1] == [h0] && heads[..2] == [h0, h1] && heads[..3] == [h0, h1, h2];
    forall i | 0 <= i < 4 ensures HeadAt(conf, [b0, b1, b2, b3], heads, i) {
      assert i == 0 || i == 1 || i == 2 || i == 3;
    }
  }

  lemma OddMasses()
    ensures StoredRun(ODD_HEADS, ODD_STORED)
  {
    assert Pow10(0) == 1 && Pow10(1) == 10;
    forall i | 0 <= i < 4 ensures StoredAt(ODD_HEADS, ODD_STORED, i) {
      assert i == 0 || i == 1 || i == 2 || i == 3;
    }
  }

  /** Such a block exists: re-evaluated between two dividends, a dividend of 9999 becomes 1009899. Block
      #3 shifts the unit base and announces 100990 in base 1, although no dividend is due. */
  lemma MassesMayDisagree()
    ensures Run(ODD_CONF, [IN0, IN1, IN2, IN3], ODD_HEADS) && StoredRun(ODD_HEADS, ODD_STORED)
    ensures ODD_HEADS[0].unitBase == 0 && ODD_HEADS[3].newDividend == Some(100990)
    ensures ODD_HEADS[3].mass == 9999 && ODD_STORED[3].monetaryMass == 1019899
  {
    OddRun();
    OddMasses();
  }
}
