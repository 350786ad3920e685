/** The members: the counter of the head is their number in every reachable state. */
module Membership {
  import opened Outcomes
  import opened Sources
  import opened Identities
  import R = Reduction

  ghost function Members(log: seq<IRow>): set<string> {
    set i | 0 <= i < |log| && Member(log, log[i].pub) == Some(true) :: log[i].pub
  }

  lemma {:induction false} MemberHasRow(log: seq<IRow>, pub: string)
    requires Member(log, pub).Some?
    ensures Has(log, pub)
  {
    var n := |log| - 1;
    assert log[n] in log;
    if !(log[n].pub == pub && log[n].member.Some?) {
      MemberHasRow(log[..n], pub);
      var r :| r in log[..n] && r.pub == pub;
      assert r in log;
    }
  }

  lemma IsMember(log: seq<IRow>, pub: string)
    ensures pub in Members(log) <==> Member(log, pub) == Some(true)
  {
    if Member(log, pub) == Some(true) {
      MemberHasRow(log, pub);
      var r :| r in log && r.pub == pub;
      var i :| 0 <= i < |log| && log[i] == r;
    }
  }

  // ---- Reading a key through `reduce` ----

  function AsRecord(r: IRow): R.Record<bool> {
    R.Record(Some(r.writtenOn),
             (if r.member.Some? then map["member" := r.member] else map[])
             + (if r.kick.Some? then map["kick" := r.kick] else map["kick" := None]))
  }

  function RecordsOf(log: seq<IRow>, pub: string): seq<R.Record<bool>> {
    if log == [] then []
    else
      var front, r := RecordsOf(log[..|log| - 1], pub), log[|log| - 1];
      if r.pub == pub then front + [AsRecord(r)] else front
  }

  /** `reduce(...).member`: the membership of a key is the member field of its reduced rows. */
  lemma {:induction false} MemberIsReduced(log: seq<IRow>, pub: string)
    ensures var fields := R.Reduced(RecordsOf(log, pub)).fields;
            Member(log, pub) == if "member" in fields then fields["member"] else None
  {
    if log != [] {
      var front, r := log[..|log| - 1], log[|log| - 1];
      MemberIsReduced(front, pub);
      if r.pub == pub {
        var records := RecordsOf(front, pub);
        assert (records + [AsRecord(r)])[..|records|] == records;
        assert "member" != "kick" by { assert "member"[0] == 'm'; }
      }
    }
  }

  /** The reduced rows of a key say that it is to be kicked. */
  predicate IsMarked(log: seq<IRow>, pub: string) {
    var fields := R.Reduced(RecordsOf(log, pub)).fields;
    "kick" in fields && fields["kick"] == Some(true)
  }

  /** BR_G36 and BR_G86, checkRevokedAreExcluded: whoever is marked or revoked is excluded, and nobody
      else. */
  ghost predicate ExclusionRules(log: seq<IRow>, b: IdtyBlock) {
    && (forall p :: IsMarked(log, p) || p in b.revoked ==> p in b.excluded)
    && (forall p | p in b.excluded :: IsMarked(log, p) || p in b.revoked)
  }

  // ---- Appending the rows of a block ----

  lemma {:induction false} MemberAfter(log: seq<IRow>, rows: seq<IRow>, pub: string)
    requires OneRowPerPub(rows)
    ensures Member(log + rows, pub) ==
            if pub in PubsWith(rows, true) then Some(true)
            else if pub in PubsWith(rows, false) then Some(false)
            else Member(log, pub)
  {
    if rows == [] {
      assert log + rows == log;
    } else {
      var n := |rows| - 1;
      MemberAfter(log, rows[..n], pub);
      assert (log + rows)[..|log + rows| - 1] == log + rows[..n];
      PubsWithLast(rows, true);
      PubsWithLast(rows, false);
      if rows[n].pub == pub && rows[n].member.Some? {
        LastIsAlone(rows, !rows[n].member.value);
      }
    }
  }

  lemma PubsWithLast(rows: seq<IRow>, value: bool)
    requires rows != []
    ensures var n := |rows| - 1;
            PubsWith(rows, value) ==
            PubsWith(rows[..n], value) + if rows[n].member == Some(value) then {rows[n].pub} else {}
  {
    var n := |rows| - 1;
    forall p | p in PubsWith(rows[..n], value) ensures p in PubsWith(rows, value) {
      var i :| 0 <= i < n && rows[..n][i].member == Some(value) && rows[..n][i].pub == p;
      assert rows[i].pub == p;
    }
    forall p | p in PubsWith(rows, value) && !(rows[n].member == Some(value) && rows[n].pub == p)
      ensures p in PubsWith(rows[..n], value)
    {
      var i :| 0 <= i < |rows| && rows[i].member == Some(value) && rows[i].pub == p;
      assert rows[..n][i] == rows[i];
    }
  }

  lemma LastIsAlone(rows: seq<IRow>, value: bool)
    requires rows != [] && OneRowPerPub(rows) && rows[|rows| - 1].member.Some?
    ensures rows[|rows| - 1].pub !in PubsWith(rows[..|rows| - 1], value)
  {}

  function CountWith(rows: seq<IRow>, value: bool): nat {
    if rows == [] then 0
    else CountWith(rows[..|rows| - 1], value) + if rows[|rows| - 1].member == Some(value) then 1 else 0
  }

  lemma {:induction false} CountIsPubs(rows: seq<IRow>, value: bool)
    requires OneRowPerPub(rows)
    ensures CountWith(rows, value) == |PubsWith(rows, value)|
  {
    if rows != [] {
      CountIsPubs(rows[..|rows| - 1], value);
      PubsWithLast(rows, value);
      if rows[|rows| - 1].member == Some(value) {
        LastIsAlone(rows, value);
      }
    }
  }

  // ---- The rows of an accepted block ----

  lemma IdentitiesJoin(log: seq<IRow>, b: IdtyBlock)
    requires IdtyRules(log, b)
    ensures forall p | p in b.identities :: p in b.joiners
  {
    forall p | p in b.identities ensures p in b.joiners {
      var m := MRow(Create, p, false);
      assert m in LocalMRows(b);
      assert m !in OtherRows(b.actives) && m !in OtherRows(b.leavers) && m !in OtherRows(b.revoked);
      JoinedAreJoiners(b, |b.joiners|, m);
      assert b.joiners[..|b.joiners|] == b.joiners;
    }
  }

  lemma JoinersAreApart(b: IdtyBlock)
    requires NoDuplicate(b.joiners + b.actives + b.leavers + b.excluded)
    ensures forall p | p in b.joiners :: p !in b.excluded
    ensures NoDuplicate(b.excluded) && NoDuplicate(b.joiners)
  {
    var all := b.joiners + b.actives + b.leavers + b.excluded;
    var k := |b.joiners + b.actives + b.leavers|;
    forall i, j | 0 <= i < |b.joiners| && 0 <= j < |b.excluded| ensures b.joiners[i] != b.excluded[j] {
      assert all[i] == b.joiners[i] && all[k + j] == b.excluded[j];
    }
    forall i, j | 0 <= i < j < |b.excluded| ensures b.excluded[i] != b.excluded[j] {
      assert all[k + i] == b.excluded[i] && all[k + j] == b.excluded[j];
    }
    forall i, j | 0 <= i < j < |b.joiners| ensures b.joiners[i] != b.joiners[j] {
      assert all[i] == b.joiners[i] && all[j] == b.joiners[j];
    }
  }

  lemma EnteringRows(log: seq<IRow>, b: IdtyBlock)
    requires IdtyRules(log, b)
    ensures var rows := AfterJoiners(b, |b.joiners|).0;
            && OneRowPerPub(rows)
            && PubsWith(rows, true) == ToSet(b.joiners) && PubsWith(rows, false) == {}
            && forall i | 0 <= i < |rows| :: rows[i].pub in b.joiners && rows[i].member == Some(true)
  {
    var n := |b.joiners|;
    var rows := AfterJoiners(b, n).0;
    assert b.joiners[..n] == b.joiners;
    IdentitiesJoin(log, b);
    JoinersHaveOneRow(b, n);
    forall i | 0 <= i < |rows| ensures rows[i].pub in b.joiners && rows[i].member == Some(true) {
      JoinersEnter(b, n, rows[i]);
    }
    forall p | p in b.joiners ensures p in PubsWith(rows, true) {
      JoinersAreListed(b, n, p);
      var r :| r in rows && r.pub == p;
      var i :| 0 <= i < |rows| && rows[i] == r;
    }
  }

  lemma LeavingRows(b: IdtyBlock)
    requires NoDuplicate(b.excluded)
    ensures var rows := ExcludedRows(b, |b.excluded|);
            && OneRowPerPub(rows)
            && PubsWith(rows, false) == ToSet(b.excluded) && PubsWith(rows, true) == {}
            && forall i | 0 <= i < |rows| :: rows[i].pub in b.excluded
  {
    ExcludedRowsMean(b, |b.excluded|);
    var rows := ExcludedRows(b, |b.excluded|);
    forall p | p in b.excluded ensures p in PubsWith(rows, false) {
      var i :| 0 <= i < |b.excluded| && b.excluded[i] == p;
      assert rows[i].pub == p;
    }
  }

  lemma PubsOfParts(xs: seq<IRow>, ys: seq<IRow>, value: bool)
    ensures PubsWith(xs + ys, value) == PubsWith(xs, value) + PubsWith(ys, value)
  {
    var all := xs + ys;
    forall p | p in PubsWith(all, value) ensures p in PubsWith(xs, value) + PubsWith(ys, value) {
      var i :| 0 <= i < |all| && all[i].member == Some(value) && all[i].pub == p;
      if i < |xs| { assert xs[i] == all[i]; } else { assert ys[i - |xs|] == all[i]; }
    }
    forall p | p in PubsWith(xs, value) ensures p in PubsWith(all, value) {
      var i :| 0 <= i < |xs| && xs[i].member == Some(value) && xs[i].pub == p;
      assert all[i] == xs[i];
    }
    forall p | p in PubsWith(ys, value) ensures p in PubsWith(all, value) {
      var i :| 0 <= i < |ys| && ys[i].member == Some(value) && ys[i].pub == p;
      assert all[|xs| + i] == ys[i];
    }
  }

  /** The local rows of an accepted block: one for each joiner and each excluded key. */
  lemma LocalRowsMean(log: seq<IRow>, b: IdtyBlock)
    requires IdtyRules(log, b)
    ensures OneRowPerPub(LocalIRows(b))
    ensures PubsWith(LocalIRows(b), true) == ToSet(b.joiners)
    ensures PubsWith(LocalIRows(b), false) == ToSet(b.excluded)
  {
    JoinersAreApart(b);
    EnteringRows(log, b);
    LeavingRows(b);
    var xs, ys := AfterJoiners(b, |b.joiners|).0, ExcludedRows(b, |b.excluded|);
    PubsOfParts(xs, ys, true);
    PubsOfParts(xs, ys, false);
  }

  lemma JoinersAreNotMembers(log: seq<IRow>, b: IdtyBlock, p: string)
    requires IdtyRules(log, b) && p in b.joiners
    ensures Member(log, p) != Some(true)
  {
    var n := |b.joiners|;
    assert b.joiners[..n] == b.joiners;
    JoinersAreListed(b, n, p);
    var r :| r in AfterJoiners(b, n).0 && r.pub == p;
    JoinersEnter(b, n, r);
    if p in b.identities {
      if Member(log, p).Some? {
        MemberHasRow(log, p);
        assert false;
      }
    } else {
      assert MRow(Update, p, true) in LocalMRows(b);
    }
  }

  /** The rows that a block writes: its local rows, and marks that say nothing on membership. */
  ghost predicate Marks(rows: seq<IRow>) {
    forall i | 0 <= i < |rows| :: rows[i].member.None?
  }

  lemma {:induction false} MarksAreSilent(log: seq<IRow>, marks: seq<IRow>, pub: string)
    requires Marks(marks)
    ensures Member(log + marks, pub) == Member(log, pub)
  {
    if marks == [] {
      assert log + marks == log;
    } else {
      MarksAreSilent(log, marks[..|marks| - 1], pub);
      assert (log + marks)[..|log + marks| - 1] == log + marks[..|marks| - 1];
    }
  }

  /** After an accepted block the members are the former ones and the joiners, but the excluded. */
  lemma MembersAfter(log: seq<IRow>, b: IdtyBlock, marks: seq<IRow>)
    requires IdtyRules(log, b) && Marks(marks)
    ensures Members(log + LocalIRows(b) + marks) == Members(log) + ToSet(b.joiners) - ToSet(b.excluded)
    ensures ToSet(b.joiners) !! Members(log) && ToSet(b.excluded) <= Members(log)
    ensures ToSet(b.joiners) !! ToSet(b.excluded)
  {
    LocalRowsMean(log, b);
    JoinersAreApart(b);
    forall p ensures p in Members(log + LocalIRows(b) + marks) <==>
                     p in Members(log) + ToSet(b.joiners) - ToSet(b.excluded)
    {
      MemberAfter(log, LocalIRows(b), p);
      MarksAreSilent(log + LocalIRows(b), marks, p);
      IsMember(log, p);
      IsMember(log + LocalIRows(b) + marks, p);
    }
    forall p | p in b.joiners ensures p !in Members(log) {
      JoinersAreNotMembers(log, b, p);
      IsMember(log, p);
    }
    forall p | p in b.excluded ensures p in Members(log) {
      IsMember(log, p);
    }
  }

  /** BR_G10 for one block. */
  lemma CountAfter(log: seq<IRow>, b: IdtyBlock, marks: seq<IRow>)
    requires IdtyRules(log, b) && Marks(marks)
    ensures |Members(log + LocalIRows(b) + marks)| ==
            |Members(log)| + CountWith(LocalIRows(b), true) - CountWith(LocalIRows(b), false)
    ensures CountWith(LocalIRows(b), false) <= |Members(log)|
  {
    LocalRowsMean(log, b);
    CountIsPubs(LocalIRows(b), true);
    CountIsPubs(LocalIRows(b), false);
    MembersAfter(log, b, marks);
    Cardinality(Members(log), ToSet(b.joiners), ToSet(b.excluded));
  }

  lemma Cardinality(members: set<string>, joiners: set<string>, excluded: set<string>)
    requires joiners !! members && excluded <= members
    ensures |members + joiners - excluded| == |members| + |joiners| - |excluded|
    ensures |excluded| <= |members|
  {
    assert members + joiners - excluded == (members - excluded) + joiners;
    assert members == (members - excluded) + excluded;
  }

  // ---- Runs ----

  /** A run from the empty index: `logs[i]` is the index before block `i`. */
  ghost predicate IdtyRun(blocks: seq<IdtyBlock>, logs: seq<seq<IRow>>) {
    && |logs| == |blocks| + 1 && logs[0] == []
    && forall i | 0 <= i < |blocks| :: IdtyStep(blocks, logs, i)
  }

  ghost predicate IdtyStep(blocks: seq<IdtyBlock>, logs: seq<seq<IRow>>, i: nat)
    requires i < |blocks| && i + 1 < |logs|
  {
    && blocks[i].number == i && IdtyRules(logs[i], blocks[i])
    && logs[i] + LocalIRows(blocks[i]) <= logs[i + 1]
    && Marks(logs[i + 1][|logs[i]| + |LocalIRows(blocks[i])|..])
  }

  /** The members count of the heads (BR_G10). */
  ghost predicate CountedBy(blocks: seq<IdtyBlock>, counts: seq<int>) {
    |counts| == |blocks| && forall i | 0 <= i < |blocks| :: CountAt(blocks, counts, i)
  }

  ghost predicate CountAt(blocks: seq<IdtyBlock>, counts: seq<int>, i: nat)
    requires i < |blocks| && i < |counts|
  {
    var rows := LocalIRows(blocks[i]);
    counts[i] == if i == 0 then CountWith(rows, true)
                 else counts[i - 1] + CountWith(rows, true) - CountWith(rows, false)
  }

  lemma StepAppends(blocks: seq<IdtyBlock>, logs: seq<seq<IRow>>, i: nat) returns (marks: seq<IRow>)
    requires i < |blocks| && i + 1 < |logs| && IdtyStep(blocks, logs, i)
    ensures Marks(marks) && logs[i + 1] == logs[i] + LocalIRows(blocks[i]) + marks
  {
    marks := logs[i + 1][|logs[i]| + |LocalIRows(blocks[i])|..];
  }

  /** In every reachable state the members count is the number of keys whose reduced identity
      says that they are members. */
  lemma {:induction false} MembersAreCounted(blocks: seq<IdtyBlock>, logs: seq<seq<IRow>>, counts: seq<int>, i: nat)
    requires IdtyRun(blocks, logs) && CountedBy(blocks, counts) && i < |blocks|
    ensures counts[i] == |Members(logs[i + 1])|
  {
    assert IdtyStep(blocks, logs, i) && CountAt(blocks, counts, i);
    var marks := StepAppends(blocks, logs, i);
    CountAfter(logs[i], blocks[i], marks);
    if i > 0 {
      MembersAreCounted(blocks, logs, counts, i - 1);
    } else {
      assert Members(logs[0]) == {};
    }
  }
}
