/** The recurrences BR_G01 to BR_G18: how the head of the chain is computed from the block, the
    previous heads (`bindex`) and the configuration. Each rule is a function of values; the
    `prepare` operations that assign the fields of a `DBHead` are proved against these functions. */
module Heads {
  import opened Amounts
  import opened Outcomes

  datatype Conf = Conf(
    medianTimeBlocks: nat, dtDiffEval: nat, avgGenTime: nat,
    dt: nat, dtReeval: nat, udTime0: nat, udReevalTime0: nat, ud0: nat, c: real)

  ghost predicate ValidConf(conf: Conf) {
    conf.dtDiffEval > 0 && conf.dt > 0 && conf.dtReeval > 0 && conf.c >= 0.0
  }

  /** What a block brings: its fields, the number of local identity rows with `member` true and
      false, and the two floating point terms of its issuer's difficulty, as given values. */
  datatype Incoming = Incoming(
    issuer: string, time: nat, powMin: nat, joined: nat, left: nat, handicap: nat, rotation: nat)

  datatype Head = Head(
    number: nat, issuer: string, time: nat, medianTime: nat,
    issuersCount: nat, issuersFrame: int, issuersFrameVar: int,
    diffNumber: nat, powMin: nat, issuerDiff: nat, powZeros: nat, powRemainder: nat,
    membersCount: nat, udTime: nat, udReevalTime: nat,
    unitBase: nat, dividend: nat, newDividend: Option<nat>, mass: nat, massReeval: nat)

  // POW_DIFFICULTY_RANGE_RATIO is 1.189.
  const RATIO_NUM := 1189
  const RATIO_DEN := 1000
  const NB_DIGITS_UD := 4

  function Last(bindex: seq<Head>): Head
    requires bindex != []
  {
    bindex[|bindex| - 1]
  }

  /** The last rows of the index, at most `count` of them. */
  function Range(bindex: seq<Head>, count: int): seq<Head> {
    if count <= 0 then [] else if count >= |bindex| then bindex else bindex[|bindex| - count..]
  }

  function Issuers(rows: seq<Head>): set<string> {
    if rows == [] then {} else Issuers(rows[..|rows| - 1]) + {rows[|rows| - 1].issuer}
  }

  // BR_G04
  function IssuersCount(bindex: seq<Head>): nat {
    if bindex == [] then 0 else |Issuers(Range(bindex, Last(bindex).issuersFrame))|
  }

  // BR_G05
  function IssuersFrame(last: Head): int {
    if last.issuersFrameVar > 0 then last.issuersFrame + 1
    else if last.issuersFrameVar < 0 then last.issuersFrame - 1
    else last.issuersFrame
  }

  // BR_G06
  function IssuersFrameVar(last: Head, issuersCount: nat): int {
    var moved := 5 * (issuersCount as int - last.issuersCount as int);
    if last.issuersFrameVar > 0 then last.issuersFrameVar + moved - 1
    else if last.issuersFrameVar < 0 then last.issuersFrameVar + moved + 1
    else last.issuersFrameVar + moved
  }

  function TotalTime(rows: seq<Head>): nat {
    if rows == [] then 0 else TotalTime(rows[..|rows| - 1]) + rows[|rows| - 1].time
  }

  function AverageTime(rows: seq<Head>): nat
  {
    if rows == [] then 0 else TotalTime(rows) / |rows|
  }

  // BR_G08
  function MedianTime(conf: Conf, bindex: seq<Head>, time: nat): nat {
    if bindex == [] then time
    else
      var average := AverageTime(Range(bindex, Min(conf.medianTimeBlocks, |bindex|)));
      if average > Last(bindex).medianTime then average else Last(bindex).medianTime
  }

  function Min(a: nat, b: nat): nat {
    if a < b then a else b
  }

  // BR_G09
  function DiffNumber(conf: Conf, bindex: seq<Head>): nat {
    if bindex == [] then conf.dtDiffEval
    else if Last(bindex).diffNumber <= |bindex| then Last(bindex).diffNumber + conf.dtDiffEval
    else Last(bindex).diffNumber
  }

  // BR_G11
  function NextDue(due: nat, period: nat, medianTime: nat): nat {
    if due <= medianTime then due + period else due
  }

  function CeilDiv(a: nat, b: nat): nat
    requires b > 0
  {
    (a + b - 1) / b
  }

  function Ceil(x: real): int {
    -((-x).Floor)
  }

  // BR_G13, the re-evaluation, with real numbers in place of floating point ones.
  function Growth(conf: Conf, last: Head, membersCount: nat): (g: real)
    requires conf.c >= 0.0 && conf.dt > 0 && conf.dtReeval > 0 && membersCount > 0
    ensures g >= 0.0
  {
    var perUnit := CeilDiv(last.massReeval, Pow10(last.unitBase)) as real;
    conf.c * conf.c * perUnit / membersCount as real / (conf.dtReeval as real / conf.dt as real)
  }

  function Reevaluated(conf: Conf, last: Head, membersCount: nat): (d: nat)
    requires conf.c >= 0.0 && conf.dt > 0 && conf.dtReeval > 0 && membersCount > 0
    ensures d >= last.dividend
  {
    Ceil(last.dividend as real + Growth(conf, last, membersCount))
  }

  ghost function BaseDividend(conf: Conf, last: Head, udReevalTime: nat, membersCount: nat): nat
    requires ValidConf(conf)
    requires udReevalTime != last.udReevalTime ==> membersCount > 0
  {
    if udReevalTime != last.udReevalTime then Reevaluated(conf, last, membersCount) else last.dividend
  }

  // BR_G14: the dividend is rounded up to the next unit base when it has too many digits.
  predicate Shifts(dividend: nat) {
    dividend >= Pow10(NB_DIGITS_UD)
  }

  function ShiftedDividend(dividend: nat): nat {
    if Shifts(dividend) then CeilDiv(dividend, 10) else dividend
  }

  function ShiftedBase(unitBase: nat, dividend: nat): nat {
    if Shifts(dividend) then unitBase + 1 else unitBase
  }

  function NewDividend(due: bool, dividend: nat): Option<nat> {
    if due || Shifts(dividend) then Some(ShiftedDividend(dividend)) else None
  }

  // BR_G15
  function Mass(last: Head, udTime: nat, dividend: nat, unitBase: nat, membersCount: nat): nat {
    if udTime != last.udTime then last.mass + dividend * Pow10(unitBase) * membersCount else last.mass
  }

  function MassReeval(last: Head, udReevalTime: nat): nat {
    if udReevalTime != last.udReevalTime then last.mass else last.massReeval
  }

  // BR_G16, as a fraction.
  function Speed(conf: Conf, bindex: seq<Head>, medianTime: nat): (nat, nat)
    requires conf.dtDiffEval > 0 && bindex != []
  {
    var quantity := Min(conf.dtDiffEval, |bindex|);
    var since := bindex[|bindex| - quantity].medianTime;
    if medianTime <= since then (100, 1) else (quantity, medianTime - since)
  }

  // BR_G17: as fast as one block per minGenTime, as slow as one per maxGenTime.
  predicate Fast(conf: Conf, speed: (nat, nat)) {
    speed.0 * (conf.avgGenTime * RATIO_DEN / RATIO_NUM) >= speed.1
  }

  predicate Slow(conf: Conf, speed: (nat, nat)) {
    speed.0 * CeilDiv(conf.avgGenTime * RATIO_NUM, RATIO_DEN) <= speed.1
  }

  function PowMin(conf: Conf, bindex: seq<Head>, medianTime: nat, powMin: nat): nat
    requires ValidConf(conf)
  {
    if bindex == [] then powMin
    else
      var p := Last(bindex).powMin;
      if DiffNumber(conf, bindex) == Last(bindex).diffNumber then p
      else if Fast(conf, Speed(conf, bindex, medianTime)) then
        if (p + 2) % 16 == 0 then p + 2 else p + 1
      else if Slow(conf, Speed(conf, bindex, medianTime)) then
        var less := if p % 16 == 0 then 2 else 1;
        if p >= less then p - less else 0
      else p
  }

  // BR_G18
  function IssuerDiff(powMin: nat, handicap: nat, rotation: nat): nat {
    var rotated := powMin * rotation;
    var diff := (if rotated > powMin then rotated else powMin) + handicap;
    if (diff + 1) % 16 == 0 then diff + 1 else diff
  }

  /** The hypotheses on a block: no more members leave than there are, and a member remains when
      the dividend is re-evaluated, which divides by their number. */
  ghost predicate Admissible(conf: Conf, bindex: seq<Head>, b: Incoming) {
    && ValidConf(conf)
    && (bindex == [] ==> b.left == 0)
    && (bindex != [] ==>
          && Last(bindex).membersCount + b.joined >= b.left
          && (Last(bindex).udReevalTime <= MedianTime(conf, bindex, b.time) ==>
                Last(bindex).membersCount + b.joined > b.left))
  }

  ghost predicate ChainRules(conf: Conf, bindex: seq<Head>, b: Incoming, h: Head)
    requires Admissible(conf, bindex, b)
  {
    && h.number == |bindex| && h.issuer == b.issuer && h.time == b.time
    && h.medianTime == MedianTime(conf, bindex, b.time)
    && h.issuersCount == IssuersCount(bindex)
    && h.diffNumber == DiffNumber(conf, bindex)
    && if bindex == [] then
      h.issuersFrame == 1 && h.issuersFrameVar == 0 && h.membersCount == b.joined
    else
      && h.issuersFrame == IssuersFrame(Last(bindex))
      && h.issuersFrameVar == IssuersFrameVar(Last(bindex), h.issuersCount)
      && h.membersCount == Last(bindex).membersCount + b.joined - b.left
  }

  ghost predicate MoneyRules(conf: Conf, bindex: seq<Head>, h: Head) {
    if bindex == [] then
      && h.udTime == conf.udTime0 && h.udReevalTime == conf.udReevalTime0
      && h.dividend == ShiftedDividend(conf.ud0) && h.unitBase == ShiftedBase(0, conf.ud0)
      && h.newDividend == NewDividend(false, conf.ud0)
      && h.mass == 0 && h.massReeval == 0
    else
      var last := Last(bindex);
      && h.udTime == NextDue(last.udTime, conf.dt, h.medianTime)
      && h.udReevalTime == NextDue(last.udReevalTime, conf.dtReeval, h.medianTime)
      && ValidConf(conf) && (h.udReevalTime != last.udReevalTime ==> h.membersCount > 0)
      && DividendRules(conf, last, h)
      && h.mass == Mass(last, h.udTime, h.dividend, h.unitBase, h.membersCount)
      && h.massReeval == MassReeval(last, h.udReevalTime)
  }

  ghost predicate DividendRules(conf: Conf, last: Head, h: Head)
    requires ValidConf(conf)
    requires h.udReevalTime != last.udReevalTime ==> h.membersCount > 0
  {
    var based := BaseDividend(conf, last, h.udReevalTime, h.membersCount);
    && h.dividend == ShiftedDividend(based) && h.unitBase == ShiftedBase(last.unitBase, based)
    && h.newDividend == NewDividend(h.udTime != last.udTime, based)
  }

  ghost predicate WorkRules(conf: Conf, bindex: seq<Head>, b: Incoming, h: Head)
    requires ValidConf(conf)
  {
    && h.powMin == PowMin(conf, bindex, h.medianTime, b.powMin)
    && h.issuerDiff == IssuerDiff(h.powMin, b.handicap, b.rotation)
    && h.issuerDiff == 16 * h.powZeros + h.powRemainder && h.powRemainder <= 15
  }

  /** `h` is the head after block `b`: the rules fix every field of it. */
  ghost predicate IsNextHead(conf: Conf, bindex: seq<Head>, b: Incoming, h: Head) {
    && Admissible(conf, bindex, b)
    && ChainRules(conf, bindex, b, h) && MoneyRules(conf, bindex, h) && WorkRules(conf, bindex, b, h)
  }

  /** A run: every head is the one computed from its block and the heads before. */
  ghost predicate HeadAt(conf: Conf, blocks: seq<Incoming>, heads: seq<Head>, i: nat)
    requires i < |blocks| && i < |heads|
  {
    IsNextHead(conf, heads[..i], blocks[i], heads[i])
  }

  ghost predicate Run(conf: Conf, blocks: seq<Incoming>, heads: seq<Head>) {
    |heads| == |blocks| && forall i | 0 <= i < |blocks| :: HeadAt(conf, blocks, heads, i)
  }

  // ---- The operations that assign the fields ----

  lemma IssuersNext(rows: seq<Head>, i: nat)
    requires i < |rows|
    ensures Issuers(rows[..i + 1]) == Issuers(rows[..i]) + {rows[i].issuer}
  {
    assert rows[..i + 1][..i] == rows[..i];
  }

  lemma CountWithNew(s: set<string>, x: string)
    ensures |s + {x}| == |s| + if x in s then 0 else 1
  {
    if x in s { assert s + {x} == s; }
  }

  /** `uniq`, then `count` */
  method CountUniq(rows: seq<Head>) returns (n: nat)
    ensures n == |Issuers(rows)|
  {
    var seen: seq<string> := [];
    for i := 0 to |rows|
      invariant forall s :: s in seen <==> s in Issuers(rows[..i])
      invariant |seen| == |Issuers(rows[..i])|
    {
      IssuersNext(rows, i);
      CountWithNew(Issuers(rows[..i]), rows[i].issuer);
      if rows[i].issuer !in seen {
        seen := seen + [rows[i].issuer];
      }
    }
    assert rows[..|rows|] == rows;
    n := |seen|;
  }

  method Average(rows: seq<Head>) returns (avg: nat)
    ensures avg == AverageTime(rows)
  {
    if |rows| == 0 {
      return 0;
    }
    var sum := 0;
    for i := 0 to |rows|
      invariant sum == TotalTime(rows[..i])
    {
      assert rows[..i + 1][..i] == rows[..i];
      sum := sum + rows[i].time;
    }
    assert rows[..|rows|] == rows;
    avg := sum / |rows|;
  }

  ghost predicate SameChain(h: Head, k: Head) {
    h.(udTime := k.udTime, udReevalTime := k.udReevalTime, dividend := k.dividend, newDividend := k.newDividend,
       unitBase := k.unitBase, mass := k.mass, massReeval := k.massReeval, powMin := k.powMin,
       issuerDiff := k.issuerDiff, powZeros := k.powZeros, powRemainder := k.powRemainder) == k
  }

  ghost predicate SameButWork(h: Head, k: Head) {
    h.(powMin := k.powMin, issuerDiff := k.issuerDiff, powZeros := k.powZeros, powRemainder := k.powRemainder) == k
  }

  lemma ChainRulesFrame(conf: Conf, bindex: seq<Head>, b: Incoming, h: Head, k: Head)
    requires Admissible(conf, bindex, b) && ChainRules(conf, bindex, b, h) && SameChain(h, k)
    ensures ChainRules(conf, bindex, b, k)
  {}

  lemma MoneyRulesFrame(conf: Conf, bindex: seq<Head>, h: Head, k: Head)
    requires MoneyRules(conf, bindex, h) && SameButWork(h, k)
    ensures MoneyRules(conf, bindex, k)
  {}

  class DBHead {
    var number: nat
    var issuer: string
    var time: nat
    var medianTime: nat
    var issuersCount: nat
    var issuersFrame: int
    var issuersFrameVar: int
    var diffNumber: nat
    var powMin: nat
    var issuerDiff: nat
    var powZeros: nat
    var powRemainder: nat
    var membersCount: nat
    var udTime: nat
    var udReevalTime: nat
    var unitBase: nat
    var dividend: nat
    var newDividend: Option<nat>
    var mass: nat
    var massReeval: nat

    ghost function Row(): Head
      reads this
    {
      Head(number, issuer, time, medianTime, issuersCount, issuersFrame, issuersFrameVar,
           diffNumber, powMin, issuerDiff, powZeros, powRemainder, membersCount,
           udTime, udReevalTime, unitBase, dividend, newDividend, mass, massReeval)
    }

    constructor (b: Incoming)
      ensures issuer == b.issuer && time == b.time && powMin == b.powMin
    {
      issuer, time, powMin := b.issuer, b.time, b.powMin;
      newDividend := None;
    }

    method PrepareNumber(bindex: seq<Head>)
      modifies this`number
      ensures number == |bindex|
      requires forall i | 0 <= i < |bindex| :: bindex[i].number == i
    {
      if bindex != [] {
        number := Last(bindex).number + 1;
      } else {
        number := 0;
      }
    }

    method PrepareIssuersFrame(bindex: seq<Head>)
      requires number == |bindex|
      modifies this`issuersCount, this`issuersFrame, this`issuersFrameVar
      ensures issuersCount == IssuersCount(bindex)
      ensures issuersFrame == if bindex == [] then 1 else IssuersFrame(Last(bindex))
      ensures issuersFrameVar == if bindex == [] then 0 else IssuersFrameVar(Last(bindex), issuersCount)
    {
      if number == 0 {
        issuersCount, issuersFrame, issuersFrameVar := 0, 1, 0;
        return;
      }
      var last := Last(bindex);
      issuersCount := CountUniq(Range(bindex, last.issuersFrame));
      if last.issuersFrameVar > 0 {
        issuersFrame := last.issuersFrame + 1;
      } else if last.issuersFrameVar < 0 {
        issuersFrame := last.issuersFrame - 1;
      } else {
        issuersFrame := last.issuersFrame;
      }
      var issuersVar := issuersCount as int - last.issuersCount as int;
      if last.issuersFrameVar > 0 {
        issuersFrameVar := last.issuersFrameVar + 5 * issuersVar - 1;
      } else if last.issuersFrameVar < 0 {
        issuersFrameVar := last.issuersFrameVar + 5 * issuersVar + 1;
      } else {
        issuersFrameVar := last.issuersFrameVar + 5 * issuersVar;
      }
    }

    method PrepareMedianTime(conf: Conf, bindex: seq<Head>)
      requires number == |bindex|
      modifies this`medianTime
      ensures medianTime == MedianTime(conf, bindex, time)
    {
      if number > 0 {
        var average := Average(Range(bindex, Min(conf.medianTimeBlocks, number)));
        medianTime := if average > Last(bindex).medianTime then average else Last(bindex).medianTime;
      } else {
        medianTime := time;
      }
    }

    method PrepareDiffNumber(conf: Conf, bindex: seq<Head>)
      requires number == |bindex|
      modifies this`diffNumber
      ensures diffNumber == DiffNumber(conf, bindex)
    {
      if number == 0 {
        diffNumber := number + conf.dtDiffEval;
      } else if Last(bindex).diffNumber <= number {
        diffNumber := Last(bindex).diffNumber + conf.dtDiffEval;
      } else {
        diffNumber := Last(bindex).diffNumber;
      }
    }

    method PrepareUDTime(conf: Conf, bindex: seq<Head>)
      requires number == |bindex|
      modifies this`udTime, this`udReevalTime
      ensures udTime == if bindex == [] then conf.udTime0 else NextDue(Last(bindex).udTime, conf.dt, medianTime)
      ensures udReevalTime ==
              if bindex == [] then conf.udReevalTime0
              else NextDue(Last(bindex).udReevalTime, conf.dtReeval, medianTime)
    {
      if number == 0 {
        udTime, udReevalTime := conf.udTime0, conf.udReevalTime0;
        return;
      }
      var last := Last(bindex);
      udTime := if last.udTime <= medianTime then last.udTime + conf.dt else last.udTime;
      udReevalTime := if last.udReevalTime <= medianTime then last.udReevalTime + conf.dtReeval else last.udReevalTime;
    }

    /** `prepareDividend` then `prepareUnitBase` */
    method PrepareDividend(conf: Conf, bindex: seq<Head>)
      requires number == |bindex| && ValidConf(conf)
      requires bindex != [] && udReevalTime != Last(bindex).udReevalTime ==> membersCount > 0
      modifies this`dividend, this`newDividend, this`unitBase
      ensures bindex == [] ==>
                && dividend == ShiftedDividend(conf.ud0) && unitBase == ShiftedBase(0, conf.ud0)
                && newDividend == NewDividend(false, conf.ud0)
      ensures bindex != [] ==>
                DividendRules(conf, Last(bindex), Row())
    {
      unitBase := if number == 0 then 0 else Last(bindex).unitBase;
      if number == 0 {
        dividend := conf.ud0;
      } else if udReevalTime != Last(bindex).udReevalTime {
        dividend := Reevaluated(conf, Last(bindex), membersCount);
      } else {
        dividend := Last(bindex).dividend;
      }
      if number > 0 && udTime != Last(bindex).udTime {
        newDividend := Some(dividend);
      } else {
        newDividend := None;
      }
      if dividend >= Pow10(NB_DIGITS_UD) {
        dividend := CeilDiv(dividend, 10);
        newDividend := Some(dividend);
        unitBase := unitBase + 1;
      }
    }

    method PrepareMass(bindex: seq<Head>)
      requires number == |bindex|
      modifies this`mass, this`massReeval
      ensures bindex == [] ==> mass == 0 && massReeval == 0
      ensures bindex != [] ==>
                && mass == Mass(Last(bindex), udTime, dividend, unitBase, membersCount)
                && massReeval == MassReeval(Last(bindex), udReevalTime)
    {
      if number == 0 {
        mass, massReeval := 0, 0;
        return;
      }
      var last := Last(bindex);
      mass := if udTime != last.udTime then last.mass + dividend * Pow10(unitBase) * membersCount else last.mass;
      massReeval := if udReevalTime != last.udReevalTime then last.mass else last.massReeval;
    }

    method PreparePowMin(conf: Conf, bindex: seq<Head>)
      requires number == |bindex| && ValidConf(conf) && diffNumber == DiffNumber(conf, bindex)
      modifies this`powMin
      ensures powMin == PowMin(conf, bindex, medianTime, old(powMin))
    {
      if number > 0 {
        var last, speed := Last(bindex), Speed(conf, bindex, medianTime);
        var turn := diffNumber != last.diffNumber;
        if turn && Fast(conf, speed) && (last.powMin + 2) % 16 == 0 {
          powMin := last.powMin + 2;
        } else if turn && Fast(conf, speed) {
          powMin := last.powMin + 1;
        } else if turn && Slow(conf, speed) && last.powMin % 16 == 0 {
          powMin := if last.powMin >= 2 then last.powMin - 2 else 0;
        } else if turn && Slow(conf, speed) {
          powMin := if last.powMin >= 1 then last.powMin - 1 else 0;
        } else {
          powMin := last.powMin;
        }
      }
    }

    method PreparePersonalizedPoW(handicap: nat, rotation: nat)
      modifies this`issuerDiff, this`powZeros, this`powRemainder
      ensures issuerDiff == IssuerDiff(powMin, handicap, rotation)
      ensures issuerDiff == 16 * powZeros + powRemainder && powRemainder <= 14
    {
      issuerDiff := (if powMin * rotation > powMin then powMin * rotation else powMin) + handicap;
      if (issuerDiff + 1) % 16 == 0 {
        issuerDiff := issuerDiff + 1;
      }
      powRemainder := issuerDiff % 16;
      powZeros := (issuerDiff - powRemainder) / 16;
    }

    method CompleteChain(conf: Conf, bindex: seq<Head>, b: Incoming)
      requires Admissible(conf, bindex, b) && issuer == b.issuer && time == b.time
      requires forall i | 0 <= i < |bindex| :: bindex[i].number == i
      modifies this`number, this`issuersCount, this`issuersFrame, this`issuersFrameVar, this`medianTime,
               this`diffNumber, this`membersCount
      ensures ChainRules(conf, bindex, b, Row())
    {
      PrepareNumber(bindex);
      PrepareIssuersFrame(bindex);
      PrepareMedianTime(conf, bindex);
      PrepareDiffNumber(conf, bindex);
      membersCount := if number == 0 then b.joined else Last(bindex).membersCount + b.joined - b.left;
    }

    method CompleteMoney(conf: Conf, bindex: seq<Head>)
      requires number == |bindex| && ValidConf(conf)
      requires bindex != [] && Last(bindex).udReevalTime <= medianTime ==> membersCount > 0
      modifies this`udTime, this`udReevalTime, this`dividend, this`newDividend, this`unitBase, this`mass,
               this`massReeval
      ensures MoneyRules(conf, bindex, Row())
    {
      PrepareUDTime(conf, bindex);
      PrepareDividend(conf, bindex);
      ghost var before := Row();
      PrepareMass(bindex);
      assert bindex != [] ==> DividendRules(conf, Last(bindex), before);
    }

    method CompleteWork(conf: Conf, bindex: seq<Head>, b: Incoming)
      requires ValidConf(conf) && number == |bindex| && diffNumber == DiffNumber(conf, bindex) && powMin == b.powMin
      modifies this`powMin, this`issuerDiff, this`powZeros, this`powRemainder
      ensures WorkRules(conf, bindex, b, Row()) && SameButWork(old(Row()), Row())
    {
      PreparePowMin(conf, bindex);
      PreparePersonalizedPoW(b.handicap, b.rotation);
    }
  }

  /** The part of `completeGlobalScope` that computes the head. */
  method CompleteHead(conf: Conf, bindex: seq<Head>, b: Incoming) returns (head: DBHead)
    requires Admissible(conf, bindex, b)
    requires forall i | 0 <= i < |bindex| :: bindex[i].number == i
    ensures fresh(head) && IsNextHead(conf, bindex, b, head.Row())
  {
    head := new DBHead(b);
    head.CompleteChain(conf, bindex, b);
    ghost var chained := head.Row();
    head.CompleteMoney(conf, bindex);
    ghost var paid := head.Row();
    head.CompleteWork(conf, bindex, b);
    ChainRulesFrame(conf, bindex, b, chained, head.Row());
    MoneyRulesFrame(conf, bindex, paid, head.Row());
  }
}
