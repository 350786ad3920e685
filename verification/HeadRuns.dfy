/** What the head recurrences keep over whole runs of the chain. */
module HeadRuns {
  import opened Amounts
  import opened Heads
  import opened Outcomes

  lemma HeadAfter(conf: Conf, blocks: seq<Incoming>, heads: seq<Head>, i: nat)
    requires Run(conf, blocks, heads) && i < |heads|
    ensures IsNextHead(conf, heads[..i], blocks[i], heads[i])
    ensures i > 0 ==> heads[..i] != [] && Last(heads[..i]) == heads[i - 1]
  {
    assert HeadAt(conf, blocks, heads, i);
  }

  // ---- The fields taken over from the block ----

  /** BR_G01 and BR_G10: what a head says of its own block, and how many members it counts. */
  lemma HeadOfBlock(conf: Conf, blocks: seq<Incoming>, heads: seq<Head>, i: nat)
    requires Run(conf, blocks, heads) && i < |heads|
    ensures heads[i].number == i && heads[i].issuer == blocks[i].issuer && heads[i].time == blocks[i].time
    ensures heads[i].membersCount ==
            (if i == 0 then 0 else heads[i - 1].membersCount) + blocks[i].joined - blocks[i].left
  {
    HeadAfter(conf, blocks, heads, i);
  }

  /** The head of block #0. */
  lemma HeadOfRoot(conf: Conf, blocks: seq<Incoming>, heads: seq<Head>)
    requires Run(conf, blocks, heads) && heads != []
    ensures var h, b := heads[0], blocks[0];
            && h.issuersCount == 0 && h.issuersFrame == 1 && h.issuersFrameVar == 0
            && h.medianTime == b.time && h.diffNumber == conf.dtDiffEval && h.powMin == b.powMin
            && h.udTime == conf.udTime0 && h.udReevalTime == conf.udReevalTime0
            && h.mass == 0 && h.massReeval == 0
            && (conf.ud0 < 10000 ==> h.dividend == conf.ud0 && h.unitBase == 0 && h.newDividend.None?)
            && (conf.ud0 >= 10000 ==>
                  10 * h.dividend - 9 <= conf.ud0 <= 10 * h.dividend && h.unitBase == 1
                  && h.newDividend == Some(h.dividend))
  {
    HeadAfter(conf, blocks, heads, 0);
    FourDigits();
  }

  lemma FourDigits()
    ensures Pow10(NB_DIGITS_UD) == 10000
  {
    assert Pow10(1) == 10 && Pow10(2) == 100 && Pow10(3) == 1000;
  }

  // ---- The issuers frame ----

  /** BR_G04 to BR_G06 conserve frame + variation == 1 + 5 * issuers; the frame is never empty. */
  lemma {:induction false} FrameIsConserved(conf: Conf, blocks: seq<Incoming>, heads: seq<Head>, i: nat)
    requires Run(conf, blocks, heads) && i < |heads|
    ensures heads[i].issuersFrame + heads[i].issuersFrameVar == 1 + 5 * heads[i].issuersCount
    ensures heads[i].issuersFrame >= 1
    ensures i > 0 ==> -1 <= heads[i].issuersFrame - heads[i - 1].issuersFrame <= 1
  {
    HeadAfter(conf, blocks, heads, i);
    if i > 0 {
      FrameIsConserved(conf, blocks, heads, i - 1);
    }
  }

  function Abs(x: int): nat {
    if x < 0 then -x else x
  }

  /** While the number of issuers is constant, each block brings the frame one closer to
      1 + 5 * issuers: it is there after |variation| blocks, and stays. */
  lemma {:induction false} FrameConverges(conf: Conf, blocks: seq<Incoming>, heads: seq<Head>, i: nat, j: nat)
    requires Run(conf, blocks, heads) && i <= j < |heads|
    requires forall k | i <= k <= j :: heads[k].issuersCount == heads[i].issuersCount
    ensures Abs(1 + 5 * heads[i].issuersCount - heads[j].issuersFrame) ==
            if Abs(heads[i].issuersFrameVar) > j - i then Abs(heads[i].issuersFrameVar) - (j - i) else 0
  {
    FrameIsConserved(conf, blocks, heads, j);
    if j > i {
      HeadAfter(conf, blocks, heads, j);
      FrameIsConserved(conf, blocks, heads, j - 1);
      FrameConverges(conf, blocks, heads, i, j - 1);
      assert heads[j].issuersCount == heads[j - 1].issuersCount;
    }
  }

  // ---- The difficulty ----

  lemma NextMultiple(d: nat, n: nat)
    requires d > 0 && n > 0
    ensures n % d == 0 ==> n / d == (n - 1) / d + 1 && d * ((n - 1) / d + 1) == n
    ensures n % d != 0 ==> n / d == (n - 1) / d && d * ((n - 1) / d + 1) > n
  {
    var q, r := n / d, n % d;
    assert n == d * q + r;
    if r == 0 {
      assert q > 0;
      QuotientIs(n - 1, d, q - 1, d - 1);
    } else {
      QuotientIs(n - 1, d, q, r - 1);
      assert d * (q + 1) == d * q + d;
    }
  }

  lemma QuotientIs(n: nat, d: nat, q: nat, r: nat)
    requires r < d && n == d * q + r
    ensures n / d == q
  {
    var p := n / d;
    assert d * (p - q) == d * p - d * q;
    SmallMultiple(d, p - q);
  }

  lemma SmallMultiple(d: int, z: int)
    requires -d < d * z < d
    ensures z == 0
  {}

  lemma ScaledOrder(a: nat, b: nat, p: nat)
    requires a <= b
    ensures a * p <= b * p
  {}

  lemma EvaluationStep(conf: Conf, blocks: seq<Incoming>, heads: seq<Head>, i: nat)
    requires Run(conf, blocks, heads) && i < |heads|
    ensures heads[i].number == i && conf.dtDiffEval > 0
    ensures heads[i].diffNumber ==
            if i == 0 then conf.dtDiffEval
            else if heads[i - 1].diffNumber <= i then heads[i - 1].diffNumber + conf.dtDiffEval
            else heads[i - 1].diffNumber
  {
    HeadAfter(conf, blocks, heads, i);
  }

  /** BR_G09: the next evaluation of the difficulty is at the next multiple of the period. */
  lemma {:induction false} EvaluationSchedule(conf: Conf, blocks: seq<Incoming>, heads: seq<Head>, i: nat)
    requires Run(conf, blocks, heads) && i < |heads|
    ensures heads[i].number == i && conf.dtDiffEval > 0
    ensures heads[i].diffNumber == conf.dtDiffEval * (i / conf.dtDiffEval + 1)
  {
    EvaluationStep(conf, blocks, heads, i);
    if i > 0 {
      EvaluationSchedule(conf, blocks, heads, i - 1);
      NextMultiple(conf.dtDiffEval, i);
    } else {
      assert 0 / conf.dtDiffEval == 0;
    }
  }

  /** One block moves the difficulty by one, or by two over a remainder of 15, or to zero. */
  lemma DifficultyStep(conf: Conf, blocks: seq<Incoming>, heads: seq<Head>, i: nat)
    requires Run(conf, blocks, heads) && 0 < i < |heads|
    ensures var p, q := heads[i - 1].powMin, heads[i].powMin;
            q == p || q == (if (p + 2) % 16 == 0 then p + 2 else p + 1)
            || q == (if p % 16 == 0 then if p >= 2 then p - 2 else 0 else p - 1)
    ensures heads[i].diffNumber == heads[i - 1].diffNumber ==> heads[i].powMin == heads[i - 1].powMin
  {
    HeadAfter(conf, blocks, heads, i);
  }

  /** BR_G17: the difficulty changes only at the multiples of the period, by at most 2. */
  lemma DifficultyMoves(conf: Conf, blocks: seq<Incoming>, heads: seq<Head>, i: nat)
    requires Run(conf, blocks, heads) && 0 < i < |heads|
    ensures conf.dtDiffEval > 0
    ensures i % conf.dtDiffEval != 0 ==> heads[i].powMin == heads[i - 1].powMin
    ensures -2 <= heads[i].powMin - heads[i - 1].powMin <= 2
  {
    DifficultyStep(conf, blocks, heads, i);
    EvaluationSchedule(conf, blocks, heads, i);
    EvaluationSchedule(conf, blocks, heads, i - 1);
    NextMultiple(conf.dtDiffEval, i);
  }

  /** The difficulty never asks for a remainder of 15, if the first block does not. */
  lemma {:induction false} DifficultySkipsFifteen(conf: Conf, blocks: seq<Incoming>, heads: seq<Head>, i: nat)
    requires Run(conf, blocks, heads) && i < |heads| && heads[0].powMin % 16 != 15
    ensures heads[i].powMin % 16 != 15
  {
    if i > 0 {
      DifficultyStep(conf, blocks, heads, i);
      DifficultySkipsFifteen(conf, blocks, heads, i - 1);
    }
  }

  /** BR_G18: the issuer's difficulty is at least the common one, and its two digits are the
      number of zeros and a remainder that is never 15. */
  lemma PersonalDifficulty(conf: Conf, blocks: seq<Incoming>, heads: seq<Head>, i: nat)
    requires Run(conf, blocks, heads) && i < |heads|
    ensures heads[i].issuerDiff >= heads[i].powMin
    ensures var p, b := heads[i].powMin, blocks[i];
            var diff := (if p * b.rotation > p then p * b.rotation else p) + b.handicap;
            heads[i].issuerDiff == if diff % 16 == 15 then diff + 1 else diff
    ensures heads[i].powZeros == heads[i].issuerDiff / 16
    ensures heads[i].powRemainder == heads[i].issuerDiff % 16 && heads[i].powRemainder <= 14
  {
    WorkStep(conf, blocks, heads, i);
  }

  lemma WorkStep(conf: Conf, blocks: seq<Incoming>, heads: seq<Head>, i: nat)
    requires Run(conf, blocks, heads) && i < |heads|
    ensures heads[i].issuerDiff == IssuerDiff(heads[i].powMin, blocks[i].handicap, blocks[i].rotation)
    ensures heads[i].issuerDiff == 16 * heads[i].powZeros + heads[i].powRemainder && heads[i].powRemainder <= 15
  {
    HeadAfter(conf, blocks, heads, i);
  }

  /** BR_G16 and BR_G17, at an evaluation: the difficulty rises when the last blocks took at most
      floor(avgGenTime / 1.189) each, falls when they took at least ceil(avgGenTime * 1.189) each,
      and stays otherwise. When no time elapsed they count as 100 blocks in one second. */
  lemma DifficultyFollowsPace(conf: Conf, blocks: seq<Incoming>, heads: seq<Head>, i: nat)
    requires Run(conf, blocks, heads) && 0 < i < |heads|
    requires heads[i].diffNumber != heads[i - 1].diffNumber
    ensures var last := if conf.dtDiffEval < i then conf.dtDiffEval else i;
            var elapsed := heads[i].medianTime - heads[i - last].medianTime;
            var count, time := if elapsed > 0 then last else 100, if elapsed > 0 then elapsed else 1;
            var least, most := conf.avgGenTime * 1000 / 1189, (conf.avgGenTime * 1189 + 999) / 1000;
            && (count * least >= time ==> heads[i].powMin > heads[i - 1].powMin)
            && (count * least < time && count * most <= time ==>
                  heads[i].powMin < heads[i - 1].powMin || heads[i].powMin == 0)
            && (count * least < time < count * most ==> heads[i].powMin == heads[i - 1].powMin)
  {
    HeadAfter(conf, blocks, heads, i);
    var last := Min(conf.dtDiffEval, i);
    assert heads[..i][i - last] == heads[i - last];
  }

  // ---- Time and the universal dividend ----

  /** The last rows, as many as asked for or as there are. */
  lemma RangeMeans(bindex: seq<Head>, count: int)
    ensures var rows := Range(bindex, count);
            && |rows| == (if count <= 0 then 0 else if count < |bindex| then count else |bindex|)
            && rows == bindex[|bindex| - |rows|..]
  {}

  /** The distinct issuers of some rows. */
  lemma {:induction false} IssuersAreDistinct(rows: seq<Head>, issuer: string)
    ensures issuer in Issuers(rows) <==> exists k | 0 <= k < |rows| :: rows[k].issuer == issuer
  {
    if rows != [] {
      var front, last := rows[..|rows| - 1], rows[|rows| - 1];
      IssuersAreDistinct(front, issuer);
      if k :| 0 <= k < |front| && front[k].issuer == issuer { assert rows[k] == front[k]; }
    }
  }

  lemma IssuersInFrame(heads: seq<Head>, i: nat, frame: int)
    requires i <= |heads|
    ensures Issuers(Range(heads[..i], frame)) == set j | 0 <= j < i && j >= i - frame :: heads[j].issuer
  {
    var rows := Range(heads[..i], frame);
    RangeMeans(heads[..i], frame);
    var from := i - |rows|;
    assert forall k | 0 <= k < |rows| :: rows[k] == heads[from + k];
    var issuers := set j | 0 <= j < i && j >= i - frame :: heads[j].issuer;
    forall issuer ensures issuer in Issuers(rows) <==> issuer in issuers {
      IssuersAreDistinct(rows, issuer);
      if j :| 0 <= j < i && j >= i - frame && heads[j].issuer == issuer {
        assert rows[j - from].issuer == issuer;
      }
    }
  }

  /** BR_G04: a head counts the distinct issuers of the blocks that lie within the frame of the head
      before, its own block not among them. */
  lemma IssuersAreCounted(conf: Conf, blocks: seq<Incoming>, heads: seq<Head>, i: nat)
    requires Run(conf, blocks, heads) && 0 < i < |heads|
    ensures heads[i].issuersCount ==
            |set j | 0 <= j < i && j >= i - heads[i - 1].issuersFrame :: heads[j].issuer|
  {
    HeadAfter(conf, blocks, heads, i);
    assert heads[i].issuersCount == IssuersCount(heads[..i]);
    IssuersInFrame(heads, i, heads[i - 1].issuersFrame);
  }

  /** BR_G05: the frame of a head is one block longer, one shorter or as long as that of the head
      before, by the sign of the variation of the latter. */
  lemma FrameFollowsVariation(conf: Conf, blocks: seq<Incoming>, heads: seq<Head>, i: nat)
    requires Run(conf, blocks, heads) && 0 < i < |heads|
    ensures var last, moved := heads[i - 1], heads[i].issuersFrame - heads[i - 1].issuersFrame;
            && (last.issuersFrameVar > 0 <==> moved == 1)
            && (last.issuersFrameVar < 0 <==> moved == -1)
            && (last.issuersFrameVar == 0 <==> moved == 0)
  {
    HeadAfter(conf, blocks, heads, i);
  }

  lemma CeilDivMeans(a: nat, b: nat)
    requires b > 0
    ensures a <= b * CeilDiv(a, b) < a + b
  {
    var n := a + b - 1;
    assert n == b * (n / b) + n % b;
  }

  /** Times of blocks add up. */
  lemma {:induction false} TimesAddUp(rows: seq<Head>, more: seq<Head>)
    ensures TotalTime(rows + more) == TotalTime(rows) + TotalTime(more)
    ensures |rows| == 1 ==> TotalTime(rows) == rows[0].time
  {
    if more == [] {
      assert rows + more == rows;
    } else {
      TimesAddUp(rows, more[..|more| - 1]);
      assert (rows + more)[..|rows + more| - 1] == rows + more[..|more| - 1];
    }
  }

  lemma AverageMeans(rows: seq<Head>)
    requires rows != []
    ensures |rows| * AverageTime(rows) <= TotalTime(rows) < |rows| * AverageTime(rows) + |rows|
  {
    assert TotalTime(rows) == |rows| * (TotalTime(rows) / |rows|) + TotalTime(rows) % |rows|;
  }

  lemma AboveAverage(total: nat, average: nat, n: nat, time: nat)
    requires n * average <= total < n * average + n && average <= time
    ensures total < n * time + n
  {
    assert n * average <= n * time;
  }

  lemma MedianStep(conf: Conf, blocks: seq<Incoming>, heads: seq<Head>, i: nat, n: nat)
    requires Run(conf, blocks, heads) && 0 < i < |heads|
    requires n == if conf.medianTimeBlocks < i then conf.medianTimeBlocks else i
    ensures var average := AverageTime(heads[i - n..i]);
            heads[i].medianTime == if average > heads[i - 1].medianTime then average else heads[i - 1].medianTime
  {
    HeadAfter(conf, blocks, heads, i);
    RangeMeans(heads[..i], n);
    assert Range(heads[..i], n) == heads[i - n..i];
  }

  /** BR_G08: no average is above the median time, and the median time only moves to an average. */
  lemma MedianTimeIsAverage(conf: Conf, blocks: seq<Incoming>, heads: seq<Head>, i: nat)
    requires Run(conf, blocks, heads) && 0 < i < |heads| && conf.medianTimeBlocks > 0
    ensures var n := if conf.medianTimeBlocks < i then conf.medianTimeBlocks else i;
            && TotalTime(heads[i - n..i]) < n * heads[i].medianTime + n
            && (heads[i].medianTime > heads[i - 1].medianTime ==> n * heads[i].medianTime <= TotalTime(heads[i - n..i]))
  {
    var n := if conf.medianTimeBlocks < i then conf.medianTimeBlocks else i;
    MedianStep(conf, blocks, heads, i, n);
    AverageMeans(heads[i - n..i]);
    AboveAverage(TotalTime(heads[i - n..i]), AverageTime(heads[i - n..i]), n, heads[i].medianTime);
  }

  lemma {:induction false} MedianTimeNeverDecreases(conf: Conf, blocks: seq<Incoming>, heads: seq<Head>, i: nat, j: nat)
    requires Run(conf, blocks, heads) && i <= j < |heads|
    ensures heads[i].medianTime <= heads[j].medianTime
  {
    if i < j {
      HeadAfter(conf, blocks, heads, j);
      MedianTimeNeverDecreases(conf, blocks, heads, i, j - 1);
    }
  }

  lemma TimeStep(conf: Conf, blocks: seq<Incoming>, heads: seq<Head>, i: nat)
    requires Run(conf, blocks, heads) && i < |heads|
    ensures conf.dt > 0
    ensures heads[i].udTime ==
            if i == 0 then conf.udTime0 else NextDue(heads[i - 1].udTime, conf.dt, heads[i].medianTime)
  {
    HeadAfter(conf, blocks, heads, i);
  }

  ghost predicate UdStep(heads: seq<Head>, i: nat)
    requires i < |heads|
  {
    i > 0 && heads[i].udTime != heads[i - 1].udTime
  }

  /** How many blocks up to `i` produced a dividend in due time. */
  ghost function UdSteps(heads: seq<Head>, i: nat): nat
    requires i < |heads|
  {
    if i == 0 then 0 else UdSteps(heads, i - 1) + if UdStep(heads, i) then 1 else 0
  }

  /** BR_G11: after k dividends the next one is due at udTime0 + k * dt. A block produces at most
      one, not before it is due, and none is skipped: a block that produces none comes before the
      due time. */
  lemma {:induction false} UdSchedule(conf: Conf, blocks: seq<Incoming>, heads: seq<Head>, i: nat)
    requires Run(conf, blocks, heads) && i < |heads|
    ensures heads[i].udTime == conf.udTime0 + UdSteps(heads, i) * conf.dt
    ensures UdStep(heads, i) ==>
              UdSteps(heads, i) > 0 && heads[i].medianTime >= conf.udTime0 + (UdSteps(heads, i) - 1) * conf.dt
    ensures i > 0 && !UdStep(heads, i) ==> heads[i].medianTime < heads[i].udTime
  {
    TimeStep(conf, blocks, heads, i);
    if i > 0 {
      UdSchedule(conf, blocks, heads, i - 1);
      var k := UdSteps(heads, i - 1);
      assert (k + 1) * conf.dt == k * conf.dt + conf.dt;
    }
  }

  /** The last dividend was due by the median time. */
  lemma {:induction false} LastUdWasDue(conf: Conf, blocks: seq<Incoming>, heads: seq<Head>, i: nat)
    requires Run(conf, blocks, heads) && i < |heads| && UdSteps(heads, i) > 0
    ensures heads[i].medianTime >= conf.udTime0 + (UdSteps(heads, i) - 1) * conf.dt
  {
    UdSchedule(conf, blocks, heads, i);
    if !UdStep(heads, i) {
      LastUdWasDue(conf, blocks, heads, i - 1);
      MedianTimeNeverDecreases(conf, blocks, heads, i - 1, i);
    }
  }

  lemma PeriodsIn(late: int, dt: nat, k: nat)
    requires k > 0 && (k - 1) * dt <= late < k * dt
    ensures late >= 0 && late / dt == k - 1
  {
    ScaledOrder(0, k - 1, dt);
    assert k * dt == (k - 1) * dt + dt;
    QuotientIs(late, dt, k - 1, late - (k - 1) * dt);
  }

  /** Without backlog, the number of dividends so far is a function of the median time. */
  lemma UdCountFromTime(conf: Conf, blocks: seq<Incoming>, heads: seq<Head>, i: nat)
    requires Run(conf, blocks, heads) && i < |heads|
    requires heads[i].medianTime < heads[i].udTime
    ensures conf.dt > 0
    ensures UdSteps(heads, i) ==
            if heads[i].medianTime < conf.udTime0 then 0 else (heads[i].medianTime - conf.udTime0) / conf.dt + 1
  {
    TimeStep(conf, blocks, heads, i);
    UdSchedule(conf, blocks, heads, i);
    var k := UdSteps(heads, i);
    if k > 0 {
      LastUdWasDue(conf, blocks, heads, i);
      PeriodsIn(heads[i].medianTime - conf.udTime0, conf.dt, k);
    }
  }

  /** How many re-evaluations there were up to block `i`, and the block of the last one. */
  ghost predicate ReevalStep(heads: seq<Head>, i: nat)
    requires i < |heads|
  {
    i > 0 && heads[i].udReevalTime != heads[i - 1].udReevalTime
  }

  ghost function ReevalSteps(heads: seq<Head>, i: nat): nat
    requires i < |heads|
  {
    if i == 0 then 0 else ReevalSteps(heads, i - 1) + if ReevalStep(heads, i) then 1 else 0
  }

  ghost function LastReeval(heads: seq<Head>, i: nat): nat
    requires i < |heads|
  {
    if i == 0 || ReevalStep(heads, i) then i else LastReeval(heads, i - 1)
  }

  lemma ReevalTimeStep(conf: Conf, blocks: seq<Incoming>, heads: seq<Head>, i: nat)
    requires Run(conf, blocks, heads) && i < |heads|
    ensures conf.dtReeval > 0
    ensures heads[i].udReevalTime ==
            if i == 0 then conf.udReevalTime0
            else NextDue(heads[i - 1].udReevalTime, conf.dtReeval, heads[i].medianTime)
    ensures heads[i].massReeval ==
            if i == 0 then 0 else if ReevalStep(heads, i) then heads[i - 1].mass else heads[i - 1].massReeval
  {
    HeadAfter(conf, blocks, heads, i);
  }

  /** BR_G11 and BR_G15: re-evaluations follow their own schedule, and each of them uses the mass as
      it was just before the previous one. */
  lemma {:induction false} ReevalSchedule(conf: Conf, blocks: seq<Incoming>, heads: seq<Head>, i: nat)
    requires Run(conf, blocks, heads) && i < |heads|
    ensures heads[i].udReevalTime == conf.udReevalTime0 + ReevalSteps(heads, i) * conf.dtReeval
    ensures i > 0 && !ReevalStep(heads, i) ==> heads[i].medianTime < heads[i].udReevalTime
    ensures LastReeval(heads, i) <= i
    ensures heads[i].massReeval == if LastReeval(heads, i) == 0 then 0 else heads[LastReeval(heads, i) - 1].mass
  {
    ReevalTimeStep(conf, blocks, heads, i);
    if i > 0 {
      ReevalSchedule(conf, blocks, heads, i - 1);
      var k := ReevalSteps(heads, i - 1);
      assert (k + 1) * conf.dtReeval == k * conf.dtReeval + conf.dtReeval;
    }
  }

  /** BR_G13: a re-evaluated dividend is the least integer not below the former one and
      c * c * ceil(mass / 10^base) / members / (dtReeval / dt). */
  lemma ReevaluationMeans(conf: Conf, last: Head, membersCount: nat)
    requires conf.c >= 0.0 && conf.dt > 0 && conf.dtReeval > 0 && membersCount > 0
    ensures var grown := last.dividend as real + Growth(conf, last, membersCount);
            grown <= Reevaluated(conf, last, membersCount) as real < grown + 1.0
    ensures Growth(conf, last, membersCount) * membersCount as real * (conf.dtReeval as real / conf.dt as real) ==
            conf.c * conf.c * CeilDiv(last.massReeval, Pow10(last.unitBase)) as real
    ensures var b := Pow10(last.unitBase);
            last.massReeval <= b * CeilDiv(last.massReeval, b) < last.massReeval + b
  {
    CeilDivMeans(last.massReeval, Pow10(last.unitBase));
    var share, ratio := membersCount as real, conf.dtReeval as real / conf.dt as real;
    var total := conf.c * conf.c * CeilDiv(last.massReeval, Pow10(last.unitBase)) as real;
    assert ratio > 0.0;
    DivideTwice(total, share, ratio);
  }

  lemma DivideTwice(total: real, share: real, ratio: real)
    requires share > 0.0 && ratio > 0.0
    ensures total / share / ratio * share * ratio == total
  {
    var q := total / share;
    assert q / ratio * ratio == q;
    assert q * share == total;
    assert q / ratio * share * ratio == q / ratio * ratio * share;
  }

  lemma DividendStep(conf: Conf, blocks: seq<Incoming>, heads: seq<Head>, i: nat) returns (based: nat)
    requires Run(conf, blocks, heads) && 0 < i < |heads|
    ensures based >= heads[i - 1].dividend
    ensures heads[i].dividend == ShiftedDividend(based)
    ensures heads[i].unitBase == ShiftedBase(heads[i - 1].unitBase, based)
    ensures heads[i].newDividend == NewDividend(heads[i].udTime != heads[i - 1].udTime, based)
  {
    HeadAfter(conf, blocks, heads, i);
    based := BaseDividend(conf, heads[i - 1], heads[i].udReevalTime, heads[i].membersCount);
  }

  /** BR_G13 and BR_G14: the former dividend, re-evaluated when that is due, is the new one; from
      10000 on it loses a digit, rounded up, to the unit base. It is announced when it is due or
      loses a digit. */
  lemma DividendMoves(conf: Conf, blocks: seq<Incoming>, heads: seq<Head>, i: nat) returns (based: nat)
    requires Run(conf, blocks, heads) && 0 < i < |heads|
    ensures heads[i].udReevalTime == heads[i - 1].udReevalTime ==> based == heads[i - 1].dividend
    ensures heads[i].udReevalTime != heads[i - 1].udReevalTime ==>
              && conf.c >= 0.0 && conf.dt > 0 && conf.dtReeval > 0 && heads[i].membersCount > 0
              && based == Reevaluated(conf, heads[i - 1], heads[i].membersCount)
    ensures based < 10000 ==>
              && heads[i].dividend == based && heads[i].unitBase == heads[i - 1].unitBase
              && heads[i].newDividend ==
                 if heads[i].udTime != heads[i - 1].udTime then Some(heads[i].dividend) else None
    ensures based >= 10000 ==>
              && 10 * heads[i].dividend - 9 <= based <= 10 * heads[i].dividend
              && heads[i].unitBase == heads[i - 1].unitBase + 1
              && heads[i].newDividend == Some(heads[i].dividend)
  {
    HeadAfter(conf, blocks, heads, i);
    FourDigits();
    based := BaseDividend(conf, heads[i - 1], heads[i].udReevalTime, heads[i].membersCount);
  }

  /** BR_G15: the mass grows by a dividend for each member when a dividend is due, and only then. */
  lemma MassGrows(conf: Conf, blocks: seq<Incoming>, heads: seq<Head>, i: nat)
    requires Run(conf, blocks, heads) && 0 < i < |heads|
    ensures heads[i].mass ==
            if heads[i].udTime != heads[i - 1].udTime
            then heads[i - 1].mass + heads[i].dividend * Pow10(heads[i].unitBase) * heads[i].membersCount
            else heads[i - 1].mass
  {
    HeadAfter(conf, blocks, heads, i);
  }

  lemma ScaledUp(based: nat, least: nat, p: nat)
    requires based >= least
    ensures CeilDiv(based, 10) * (10 * p) >= least * p
    ensures based * p >= least * p
  {
    var d := CeilDiv(based, 10);
    assert d * (10 * p) == (10 * d) * p;
    ScaledOrder(based, 10 * d, p);
    ScaledOrder(least, based, p);
  }

  /** What a unit of dividend is worth never shrinks: a shift of the unit base rounds up. */
  lemma DividendNeverShrinks(conf: Conf, blocks: seq<Incoming>, heads: seq<Head>, i: nat)
    requires Run(conf, blocks, heads) && 0 < i < |heads|
    ensures heads[i].dividend * Pow10(heads[i].unitBase) >= heads[i - 1].dividend * Pow10(heads[i - 1].unitBase)
  {
    var based := DividendStep(conf, blocks, heads, i);
    ScaledUp(based, heads[i - 1].dividend, Pow10(heads[i - 1].unitBase));
  }
}
