/** Saving a block keeps the identity stores sound, and reverting it restores them. */
module WotRevert {
  import opened Outcomes
  import opened Sources
  import opened Identities
  import opened Membership
  import opened Wot

  // ---- What the rows of a block are ----

  lemma {:induction false} CreationsOfParts(xs: seq<IRow>, ys: seq<IRow>)
    ensures Creations(xs + ys) == Creations(xs) + Creations(ys)
  {
    if ys == [] {
      assert xs + ys == xs;
    } else {
      CreationsOfParts(xs, ys[..|ys| - 1]);
      assert (xs + ys)[..|xs + ys| - 1] == xs + ys[..|ys| - 1];
    }
  }

  lemma {:induction false} NoCreations(rows: seq<IRow>)
    requires forall i | 0 <= i < |rows| :: rows[i].op == Update
    ensures Creations(rows) == []
  {
    if rows != [] {
      NoCreations(rows[..|rows| - 1]);
    }
  }

  lemma {:induction false} NewcomersAreCreated(b: IdtyBlock, n: nat)
    requires n <= |b.identities|
    ensures Creations(NewcomerRows(b, n)) == b.identities[..n]
  {
    if n > 0 {
      NewcomersAreCreated(b, n - 1);
      assert b.identities[..n] == b.identities[..n - 1] + [b.identities[n - 1]];
    }
  }

  lemma {:induction false} JoinersCreateNothing(b: IdtyBlock, n: nat)
    requires n <= |b.joiners|
    ensures Creations(AfterJoiners(b, n).0) == b.identities
  {
    if n == 0 {
      NewcomersAreCreated(b, |b.identities|);
      assert b.identities[..|b.identities|] == b.identities;
    } else {
      AfterJoinersStep(b, n);
      JoinersCreateNothing(b, n - 1);
    }
  }

  /** The created identities are the block's identities, in order. */
  lemma LocalCreations(b: IdtyBlock, marks: seq<IRow>)
    requires forall i | 0 <= i < |marks| :: marks[i].op == Update
    ensures Creations(LocalIRows(b)) == b.identities
    ensures Creations(LocalIRows(b) + marks) == b.identities
  {
    var rows := ExcludedRows(b, |b.excluded|);
    JoinersCreateNothing(b, |b.joiners|);
    ExcludedRowsMean(b, |b.excluded|);
    NoCreations(rows);
    CreationsOfParts(AfterJoiners(b, |b.joiners|).0, rows);
    NoCreations(marks);
    CreationsOfParts(LocalIRows(b), marks);
  }

  lemma {:induction false} MovesMean(rows: seq<IRow>, value: bool, p: string)
    ensures p in Moves(rows, value) <==> exists r | r in rows :: r.op == Update && r.member == Some(value) && r.pub == p
  {
    if rows != [] {
      MovesMean(rows[..|rows| - 1], value, p);
      assert rows == rows[..|rows| - 1] + [rows[|rows| - 1]];
    }
  }

  /** The keys moved by updates are the join backs and the excluded. */
  lemma LocalMoves(log: seq<IRow>, b: IdtyBlock, marks: seq<IRow>, p: string)
    requires IdtyRules(log, b) && Marks(marks)
    ensures p in Moves(LocalIRows(b) + marks, true) <==> p in b.joiners && p !in b.identities
    ensures p in Moves(LocalIRows(b) + marks, false) <==> p in b.excluded
  {
    var rows := LocalIRows(b) + marks;
    MovesMean(rows, true, p);
    MovesMean(rows, false, p);
    EnteringRows(log, b);
    ExcludedRowsMean(b, |b.excluded|);
    var entering, leaving := AfterJoiners(b, |b.joiners|).0, ExcludedRows(b, |b.excluded|);
    assert b.joiners[..|b.joiners|] == b.joiners;
    forall r | r in rows && r.op == Update && r.member.Some? && r.pub == p
      ensures (r.member == Some(true) ==> p in b.joiners && p !in b.identities)
      ensures (r.member == Some(false) ==> p in b.excluded)
    {
      if r in entering {
        JoinersEnter(b, |b.joiners|, r);
      }
    }
    if p in b.joiners && p !in b.identities {
      JoinersAreListed(b, |b.joiners|, p);
      var r :| r in entering && r.pub == p;
      JoinersEnter(b, |b.joiners|, r);
      assert r in rows;
    }
    if p in b.excluded {
      var i :| 0 <= i < |b.excluded| && b.excluded[i] == p;
      assert leaving[i] in rows;
    }
  }

  lemma LocalPubs(log: seq<IRow>, b: IdtyBlock)
    requires IdtyRules(log, b)
    ensures ToSet(Pubs(LocalIRows(b))) == ToSet(b.joiners) + ToSet(b.excluded)
  {
    EnteringRows(log, b);
    JoinersAreApart(b);
    LeavingRows(b);
    var xs, ys := AfterJoiners(b, |b.joiners|).0, ExcludedRows(b, |b.excluded|);
    var rows := LocalIRows(b);
    forall p | p in b.joiners ensures p in Pubs(rows) {
      assert p in PubsWith(xs, true);
      var i :| 0 <= i < |xs| && xs[i].member == Some(true) && xs[i].pub == p;
      assert Pubs(rows)[i] == p;
    }
    forall p | p in b.excluded ensures p in Pubs(rows) {
      assert p in PubsWith(ys, false);
      var i :| 0 <= i < |ys| && ys[i].member == Some(false) && ys[i].pub == p;
      assert Pubs(rows)[|xs| + i] == p;
    }
  }

  lemma {:induction false} BlockRows(log: seq<IRow>, rows: seq<IRow>, number: nat)
    requires forall i | 0 <= i < |log| :: log[i].writtenOn < number
    requires forall i | 0 <= i < |rows| :: rows[i].writtenOn == number
    ensures OfBlock(log + rows, number) == rows && WithoutBlock(log + rows, number) == log
  {
    if rows == [] {
      assert log + rows == log;
      OlderRows(log, number);
    } else {
      var n := |rows| - 1;
      BlockRows(log, rows[..n], number);
      assert (log + rows)[..|log + rows| - 1] == log + rows[..n];
      assert rows == rows[..n] + [rows[n]];
    }
  }

  lemma {:induction false} OlderRows(log: seq<IRow>, number: nat)
    requires forall i | 0 <= i < |log| :: log[i].writtenOn < number
    ensures OfBlock(log, number) == [] && WithoutBlock(log, number) == log
  {
    if log != [] {
      OlderRows(log[..|log| - 1], number);
      assert log == log[..|log| - 1] + [log[|log| - 1]];
    }
  }

  lemma LocalRowsAreDated(log: seq<IRow>, b: IdtyBlock)
    requires IdtyRules(log, b)
    ensures forall i | 0 <= i < |LocalIRows(b)| :: LocalIRows(b)[i].writtenOn == b.number
  {
    var xs, ys := AfterJoiners(b, |b.joiners|).0, ExcludedRows(b, |b.excluded|);
    ExcludedRowsMean(b, |b.excluded|);
    forall i | 0 <= i < |LocalIRows(b)| ensures LocalIRows(b)[i].writtenOn == b.number {
      if i < |xs| {
        JoinersEnter(b, |b.joiners|, xs[i]);
      } else {
        assert LocalIRows(b)[i] == ys[i - |xs|];
      }
    }
  }

  // ---- Saving ----

  lemma HasAfter(log: seq<IRow>, b: IdtyBlock, marks: seq<IRow>, p: string)
    requires IdtyRules(log, b)
    ensures Has(log + LocalIRows(b), p) <==> Has(log, p) || p in b.joiners || p in b.excluded
  {
    LocalPubs(log, b);
    var rows := LocalIRows(b);
    if Has(log + rows, p) && !Has(log, p) {
      var r :| r in log + rows && r.pub == p;
      var i :| 0 <= i < |rows| && rows[i] == r;
      assert Pubs(rows)[i] == p;
      assert p in ToSet(Pubs(rows));
    }
    if p in b.joiners || p in b.excluded {
      assert p in ToSet(Pubs(rows));
      var i :| 0 <= i < |rows| && Pubs(rows)[i] == p;
      assert rows[i] in log + rows;
    }
    if Has(log, p) {
      var r :| r in log && r.pub == p;
      assert r in log + rows;
    }
  }

  /** The identities after a block: the newcomers got the next nodes, in order. */
  lemma IdsAfter(w: Web, b: IdtyBlock, marks: seq<IRow>, certs: seq<CRow>, after: Web)
    requires SoundWeb(w, b.number) && IdtyRules(w.log, b) && KnownJoiners(w, b)
    requires Saved(w, b, marks, certs, after)
    ensures after.ids.Keys == w.ids.Keys + ToSet(b.identities) && ToSet(b.identities) !! w.ids.Keys
    ensures forall p | p in w.ids :: after.ids[p] == w.ids[p] && w.ids[p] < |w.nodes|
    ensures forall i | 0 <= i < |b.identities| :: Assigned(after.ids, b.identities, |w.nodes|, i)
    ensures |after.nodes| == |w.nodes| + |b.identities|
    ensures ToSet(b.joiners) + ToSet(b.excluded) <= after.ids.Keys
  {
    LocalCreations(b, marks);
    WithIdsKeys(w.ids, b.identities, |w.nodes|);
    forall i | 0 <= i < |b.identities| ensures Assigned(after.ids, b.identities, |w.nodes|, i) {
      WithIdsAt(w.ids, b.identities, |w.nodes|, i);
    }
    EnabledAt(WithNodes(w.nodes, b.identities), after.ids, b.joiners, true);
    EnabledAt(Enabled(WithNodes(w.nodes, b.identities), after.ids, b.joiners, true), after.ids, b.excluded, false);
    forall p | p in w.ids ensures w.ids[p] < |w.nodes| {
      assert NodeIs(w, p);
    }
    forall p | p in b.excluded ensures p in w.ids {
      MemberHasRow(w.log, p);
    }
  }

  lemma NewIdsAreInjective(
      ids: map<string, nat>, after: map<string, nat>, newcomers: seq<string>, first: nat, p: string, q: string)
    requires after.Keys == ids.Keys + ToSet(newcomers) && p in after && q in after && p != q
    requires forall r | r in ids :: after[r] == ids[r] && ids[r] < first
    requires forall r, t | r in ids && t in ids && r != t :: ids[r] != ids[t]
    requires forall i | 0 <= i < |newcomers| :: Assigned(after, newcomers, first, i)
    ensures after[p] != after[q]
  {
    if p !in ids {
      var i :| 0 <= i < |newcomers| && newcomers[i] == p;
      assert Assigned(after, newcomers, first, i);
    }
    if q !in ids {
      var j :| 0 <= j < |newcomers| && newcomers[j] == q;
      assert Assigned(after, newcomers, first, j);
    }
  }

  lemma IdsAreInjective(w: Web, b: IdtyBlock, marks: seq<IRow>, certs: seq<CRow>, after: Web, p: string, q: string)
    requires SoundWeb(w, b.number) && IdtyRules(w.log, b) && KnownJoiners(w, b)
    requires Saved(w, b, marks, certs, after)
    requires p in after.ids && q in after.ids && p != q
    ensures after.ids[p] != after.ids[q]
  {
    IdsAfter(w, b, marks, certs, after);
    NewIdsAreInjective(w.ids, after.ids, b.identities, |w.nodes|, p, q);
  }

  lemma NodeAfter(w: Web, b: IdtyBlock, marks: seq<IRow>, certs: seq<CRow>, after: Web, p: string)
    requires SoundWeb(w, b.number) && IdtyRules(w.log, b) && KnownJoiners(w, b)
    requires Saved(w, b, marks, certs, after) && p in after.ids
    ensures after.ids[p] < |after.nodes|
    ensures after.nodes[after.ids[p]] ==
            (p !in b.excluded && (p in b.joiners || p in b.identities || (p in w.ids && w.nodes[w.ids[p]])))
  {
    LocalCreations(b, marks);
    IdsAfter(w, b, marks, certs, after);
    var nodes := WithNodes(w.nodes, b.identities);
    EnabledAt(nodes, after.ids, b.joiners, true);
    EnabledAt(Enabled(nodes, after.ids, b.joiners, true), after.ids, b.excluded, false);
    var k := after.ids[p];
    if p !in w.ids {
      var i :| 0 <= i < |b.identities| && b.identities[i] == p;
      assert Assigned(after.ids, b.identities, |w.nodes|, i);
    }
    HitsMean(w, b, marks, certs, after, b.joiners, p);
    HitsMean(w, b, marks, certs, after, b.excluded, p);
  }

  lemma HitsMean(w: Web, b: IdtyBlock, marks: seq<IRow>, certs: seq<CRow>, after: Web, pubs: seq<string>, p: string)
    requires SoundWeb(w, b.number) && IdtyRules(w.log, b) && KnownJoiners(w, b)
    requires Saved(w, b, marks, certs, after) && p in after.ids
    ensures Hits(after.ids, pubs, after.ids[p]) <==> p in pubs
  {
    if Hits(after.ids, pubs, after.ids[p]) {
      var q :| q in pubs && q in after.ids && after.ids[q] == after.ids[p];
      if q != p {
        IdsAreInjective(w, b, marks, certs, after, p, q);
        assert false;
      }
    }
  }

  lemma FlagAfter(w: Web, b: IdtyBlock, marks: seq<IRow>, certs: seq<CRow>, after: Web)
    requires SoundWeb(w, b.number) && IdtyRules(w.log, b) && KnownJoiners(w, b)
    requires Saved(w, b, marks, certs, after)
    ensures after.flags.Keys == w.flags.Keys + ToSet(b.joiners) + ToSet(b.excluded)
    ensures forall p | p in after.flags ::
              after.flags[p] == (p !in b.excluded && (p in b.joiners || (p in w.flags && w.flags[p])))
  {
    var created := Flagged(w.flags, Pubs(LocalIRows(b)), true);
    FlaggedAt(w.flags, Pubs(LocalIRows(b)), true);
    FlaggedAt(created, b.joiners, true);
    FlaggedAt(Flagged(created, b.joiners, true), b.excluded, false);
    LocalPubs(w.log, b);
    forall p ensures p in Pubs(LocalIRows(b)) <==> p in b.joiners || p in b.excluded {
      assert p in ToSet(Pubs(LocalIRows(b))) <==> p in ToSet(b.joiners) + ToSet(b.excluded);
    }
  }

  /** Saving an accepted block keeps nodes and flags in step with the members. */
  lemma SavedIsSound(w: Web, b: IdtyBlock, marks: seq<IRow>, certs: seq<CRow>, after: Web)
    requires SoundWeb(w, b.number) && IdtyRules(w.log, b) && KnownJoiners(w, b)
    requires Saved(w, b, marks, certs, after)
    requires forall i | 0 <= i < |marks| :: Has(w.log + LocalIRows(b), marks[i].pub)
    ensures SoundWeb(after, b.number + 1)
  {
    IdsAfter(w, b, marks, certs, after);
    FlagsStaySound(w, b, marks, certs, after);
    RowsStayDated(w, b, marks, certs, after);
    forall p ensures p in after.ids <==> Has(after.log, p) {
      IdsStayKnown(w, b, marks, certs, after, p);
    }
    forall p | p in after.ids ensures NodeIs(after, p) {
      NodeStaysSound(w, b, marks, certs, after, p);
    }
    forall p, q | p in after.ids && q in after.ids && p != q ensures after.ids[p] != after.ids[q] {
      IdsAreInjective(w, b, marks, certs, after, p, q);
    }
    forall k | 0 <= k < |after.nodes| ensures HasOwner(after.ids, k) {
      OwnersAfter(w, b, marks, certs, after, k);
    }
  }

  lemma RowsStayDated(w: Web, b: IdtyBlock, marks: seq<IRow>, certs: seq<CRow>, after: Web)
    requires SoundWeb(w, b.number) && IdtyRules(w.log, b) && Saved(w, b, marks, certs, after)
    ensures forall i | 0 <= i < |after.log| :: after.log[i].writtenOn < b.number + 1
    ensures Older(after.mindex, b.number + 1) && Older(after.cindex, b.number + 1)
  {
    LocalRowsAreDated(w.log, b);
  }

  lemma IdsStayKnown(w: Web, b: IdtyBlock, marks: seq<IRow>, certs: seq<CRow>, after: Web, p: string)
    requires SoundWeb(w, b.number) && IdtyRules(w.log, b) && KnownJoiners(w, b)
    requires Saved(w, b, marks, certs, after)
    requires forall i | 0 <= i < |marks| :: Has(w.log + LocalIRows(b), marks[i].pub)
    ensures p in after.ids <==> Has(after.log, p)
  {
    IdsAfter(w, b, marks, certs, after);
    IdentitiesJoin(w.log, b);
    HasAfter(w.log, b, marks, p);
    MarksHaveNoNew(w.log + LocalIRows(b), marks, p);
    assert p in after.ids <==> p in w.ids || p in b.identities;
    assert p in b.joiners || p in b.excluded ==> p in ToSet(b.joiners) + ToSet(b.excluded);
  }

  lemma OwnersAfter(w: Web, b: IdtyBlock, marks: seq<IRow>, certs: seq<CRow>, after: Web, k: nat)
    requires SoundWeb(w, b.number) && IdtyRules(w.log, b) && KnownJoiners(w, b)
    requires Saved(w, b, marks, certs, after) && k < |after.nodes|
    ensures HasOwner(after.ids, k)
  {
    IdsAfter(w, b, marks, certs, after);
    if k < |w.nodes| {
      assert HasOwner(w.ids, k);
      var p :| p in w.ids && w.ids[p] == k;
      assert after.ids[p] == k;
    } else {
      assert Assigned(after.ids, b.identities, |w.nodes|, k - |w.nodes|);
    }
  }

  lemma NodeStaysSound(w: Web, b: IdtyBlock, marks: seq<IRow>, certs: seq<CRow>, after: Web, p: string)
    requires SoundWeb(w, b.number) && IdtyRules(w.log, b) && KnownJoiners(w, b)
    requires Saved(w, b, marks, certs, after) && p in after.ids
    ensures NodeIs(after, p)
  {
    MembersAfter(w.log, b, marks);
    IdentitiesJoin(w.log, b);
    NodeAfter(w, b, marks, certs, after, p);
    IdsAfter(w, b, marks, certs, after);
    if p in w.ids {
      assert NodeIs(w, p);
    } else {
      assert p in ToSet(b.identities);
    }
  }

  lemma FlagsStaySound(w: Web, b: IdtyBlock, marks: seq<IRow>, certs: seq<CRow>, after: Web)
    requires SoundWeb(w, b.number) && IdtyRules(w.log, b) && KnownJoiners(w, b)
    requires Saved(w, b, marks, certs, after)
    ensures after.flags.Keys == after.ids.Keys
    ensures forall p | p in after.flags :: FlagIs(after, p)
  {
    FlagAfter(w, b, marks, certs, after);
    MembersAfter(w.log, b, marks);
    IdentitiesJoin(w.log, b);
    IdsAfter(w, b, marks, certs, after);
    forall p ensures p in after.flags <==> p in after.ids {
      assert p in after.flags <==> p in w.ids || p in b.joiners || p in b.excluded;
      if p in b.excluded { MemberHasRow(w.log, p); }
    }
    forall p | p in after.flags ensures FlagIs(after, p) {
      if p in w.flags { assert FlagIs(w, p); }
      if p in Members(w.log) { IsMember(w.log, p); MemberHasRow(w.log, p); }
    }
  }

  lemma MarksHaveNoNew(log: seq<IRow>, marks: seq<IRow>, p: string)
    requires forall i | 0 <= i < |marks| :: Has(log, marks[i].pub)
    ensures Has(log + marks, p) <==> Has(log, p)
  {
    if Has(log, p) {
      var r :| r in log && r.pub == p;
      assert r in log + marks;
    }
    if Has(log + marks, p) {
      var r :| r in log + marks && r.pub == p;
      if r in marks {
        var i :| 0 <= i < |marks| && marks[i] == r;
      }
    }
  }

  /** The members that produce a dividend (BR_G91): those flagged once an entry was made for every
      local row. They are the members after the block and also the excluded. */
  lemma ProducersAre(w: Web, b: IdtyBlock, marks: seq<IRow>, producers: set<string>)
    requires SoundWeb(w, b.number) && IdtyRules(w.log, b) && Marks(marks)
    requires var flags := Flagged(w.flags, Pubs(LocalIRows(b)), true);
             producers == set p | p in flags && flags[p]
    ensures producers == Members(w.log + LocalIRows(b) + marks) + ToSet(b.excluded)
    ensures |producers| == |Members(w.log + LocalIRows(b) + marks)| + |ToSet(b.excluded)|
  {
    var flags := Flagged(w.flags, Pubs(LocalIRows(b)), true);
    FlaggedAt(w.flags, Pubs(LocalIRows(b)), true);
    LocalPubs(w.log, b);
    MembersAfter(w.log, b, marks);
    var after := Members(w.log + LocalIRows(b) + marks);
    forall p ensures p in producers <==> p in after + ToSet(b.excluded) {
      assert p in ToSet(Pubs(LocalIRows(b))) <==> p in ToSet(b.joiners) + ToSet(b.excluded);
      if p in w.flags { assert FlagIs(w, p); }
      if p in Members(w.log) { IsMember(w.log, p); MemberHasRow(w.log, p); assert p in w.ids; }
    }
    assert after !! ToSet(b.excluded);
  }

  // ---- Reverting ----

  lemma MembershipsAreRemoved(before: seq<Dated<MRow>>, b: IdtyBlock, after: seq<Dated<MRow>>)
    requires Older(before, b.number) && MembershipsSaved(before, b, after)
    ensures Kept(after, b.number) == before
  {
    var more: seq<MRow> :| after == before + Stamped(LocalMRows(b) + more, b.number);
    AppendedIsRemoved(before, LocalMRows(b) + more, b.number);
  }

  lemma RevertedIdentities(w: Web, b: IdtyBlock, marks: seq<IRow>, certs: seq<CRow>, after: Web)
    requires SoundWeb(w, b.number) && IdtyRules(w.log, b) && Saved(w, b, marks, certs, after)
    ensures OfBlock(after.log, b.number) == LocalIRows(b) + marks
    ensures WithoutBlock(after.log, b.number) == w.log
    ensures Creations(OfBlock(after.log, b.number)) == b.identities
  {
    LocalRowsAreDated(w.log, b);
    BlockRows(w.log, LocalIRows(b) + marks, b.number);
    assert after.log == w.log + (LocalIRows(b) + marks);
    LocalCreations(b, marks);
  }

  lemma RevertedRows(w: Web, b: IdtyBlock, marks: seq<IRow>, certs: seq<CRow>, after: Web)
    requires SoundWeb(w, b.number) && IdtyRules(w.log, b) && Saved(w, b, marks, certs, after)
    ensures OfBlock(after.log, b.number) == LocalIRows(b) + marks
    ensures WithoutBlock(after.log, b.number) == w.log
    ensures Creations(OfBlock(after.log, b.number)) == b.identities
    ensures Kept(after.mindex, b.number) == w.mindex && Kept(after.cindex, b.number) == w.cindex
    ensures WrittenBy(after.cindex, b.number) == certs
  {
    MembershipsAreRemoved(w.mindex, b, after.mindex);
    AppendedIsRemoved(w.cindex, certs, b.number);
    RevertedIdentities(w, b, marks, certs, after);
  }

  lemma RevertRestoresNodes(w: Web, b: IdtyBlock, marks: seq<IRow>, certs: seq<CRow>, after: Web, back: Web)
    requires SoundWeb(w, b.number) && IdtyRules(w.log, b) && KnownJoiners(w, b)
    requires Saved(w, b, marks, certs, after) && Reverted(after, b.number, back)
    ensures back.nodes == w.nodes
  {
    RevertedRows(w, b, marks, certs, after);
    IdsAfter(w, b, marks, certs, after);
    var rows := LocalIRows(b) + marks;
    var undone := Enabled(after.nodes, after.ids, Moves(rows, true), false);
    EnabledAt(after.nodes, after.ids, Moves(rows, true), false);
    EnabledAt(Popped(undone, |b.identities|), after.ids, Moves(rows, false), true);
    forall k | 0 <= k < |w.nodes| ensures back.nodes[k] == w.nodes[k] {
      assert HasOwner(w.ids, k);
      var p :| p in w.ids && w.ids[p] == k;
      RestoredNode(w, b, marks, certs, after, p);
    }
  }

  lemma RestoredNode(w: Web, b: IdtyBlock, marks: seq<IRow>, certs: seq<CRow>, after: Web, p: string)
    requires SoundWeb(w, b.number) && IdtyRules(w.log, b) && KnownJoiners(w, b)
    requires Saved(w, b, marks, certs, after) && p in w.ids
    ensures w.ids[p] < |w.nodes| <= |after.nodes| && p in after.ids && after.ids[p] == w.ids[p]
    ensures var rows := LocalIRows(b) + marks;
            w.nodes[w.ids[p]] ==
            (Hits(after.ids, Moves(rows, false), w.ids[p])
             || (!Hits(after.ids, Moves(rows, true), w.ids[p]) && after.nodes[w.ids[p]]))
  {
    IdsAfter(w, b, marks, certs, after);
    NodeAfter(w, b, marks, certs, after, p);
    var rows := LocalIRows(b) + marks;
    HitsMean(w, b, marks, certs, after, Moves(rows, true), p);
    HitsMean(w, b, marks, certs, after, Moves(rows, false), p);
    LocalMoves(w.log, b, marks, p);
    MembersAfter(w.log, b, marks);
    assert NodeIs(w, p);
    assert p in b.identities ==> p in ToSet(b.identities);
  }

  lemma RevertRestoresFlags(w: Web, b: IdtyBlock, marks: seq<IRow>, certs: seq<CRow>, after: Web, back: Web)
    requires SoundWeb(w, b.number) && IdtyRules(w.log, b) && KnownJoiners(w, b)
    requires Saved(w, b, marks, certs, after) && Reverted(after, b.number, back)
    ensures back.flags == w.flags && back.ids == w.ids
  {
    BackIsUndone(w, b, marks, certs, after, back);
    forall p ensures RestoredAt(w.flags, after.flags, LocalIRows(b) + marks, b.identities, p) {
      RestoredFlag(w, b, marks, certs, after, p);
    }
    AllRestored(w.flags, after.flags, LocalIRows(b) + marks, b.identities);
  }

  /** The flag of a key before, from its flag after and the moves that are undone. */
  ghost predicate RestoredAt(
      before: map<string, bool>, after: map<string, bool>, rows: seq<IRow>, newcomers: seq<string>, p: string)
  {
    && (p in before <==>
        ((p in after || p in Moves(rows, true)) && p !in newcomers) || p in Moves(rows, false))
    && (p in before ==>
          p in after &&
          before[p] == if p in Moves(rows, false) then true else if p in Moves(rows, true) then false else after[p])
  }

  lemma AllRestored(before: map<string, bool>, after: map<string, bool>, rows: seq<IRow>, newcomers: seq<string>)
    requires forall p :: RestoredAt(before, after, rows, newcomers, p)
    ensures Undone(after, rows, newcomers) == before
  {
    FlagsAreUndone(after, rows, newcomers);
    forall p
      ensures p in Undone(after, rows, newcomers) <==> p in before
      ensures p in before ==> Undone(after, rows, newcomers)[p] == before[p]
    {
      assert RestoredAt(before, after, rows, newcomers, p);
    }
  }

  lemma BackIsUndone(w: Web, b: IdtyBlock, marks: seq<IRow>, certs: seq<CRow>, after: Web, back: Web)
    requires SoundWeb(w, b.number) && IdtyRules(w.log, b) && KnownJoiners(w, b)
    requires Saved(w, b, marks, certs, after) && Reverted(after, b.number, back)
    ensures back.ids == w.ids && back.flags == Undone(after.flags, LocalIRows(b) + marks, b.identities)
  {
    RevertedRows(w, b, marks, certs, after);
    IdsAfter(w, b, marks, certs, after);
    assert (set p | p in b.identities) == ToSet(b.identities);
  }

  function Undone(flags: map<string, bool>, rows: seq<IRow>, newcomers: seq<string>): map<string, bool> {
    Flagged(Flagged(flags, Moves(rows, true), false) - (set p | p in newcomers), Moves(rows, false), true)
  }

  lemma FlagsAreUndone(flags: map<string, bool>, rows: seq<IRow>, newcomers: seq<string>)
    ensures var kept := flags.Keys + ToSet(Moves(rows, true)) - ToSet(newcomers);
            Undone(flags, rows, newcomers).Keys == kept + ToSet(Moves(rows, false))
    ensures forall p | p in Undone(flags, rows, newcomers) ::
              Undone(flags, rows, newcomers)[p] ==
              if p in Moves(rows, false) then true else if p in Moves(rows, true) then false else flags[p]
  {
    var lowered := Flagged(flags, Moves(rows, true), false);
    FlaggedAt(flags, Moves(rows, true), false);
    FlaggedAt(lowered - ToSet(newcomers), Moves(rows, false), true);
    assert (set p | p in newcomers) == ToSet(newcomers);
  }

  lemma RestoredFlag(w: Web, b: IdtyBlock, marks: seq<IRow>, certs: seq<CRow>, after: Web, p: string)
    requires SoundWeb(w, b.number) && IdtyRules(w.log, b) && KnownJoiners(w, b)
    requires Saved(w, b, marks, certs, after)
    ensures RestoredAt(w.flags, after.flags, LocalIRows(b) + marks, b.identities, p)
  {
    FlagAfter(w, b, marks, certs, after);
    MembersAfter(w.log, b, marks);
    IdentitiesJoin(w.log, b);
    LocalMoves(w.log, b, marks, p);
    IdsAfter(w, b, marks, certs, after);
    assert p in after.flags <==> p in w.flags || p in b.joiners || p in b.excluded;
    assert p in b.identities ==> p in ToSet(b.identities);
    if p in w.flags { assert FlagIs(w, p); }
    if p in b.excluded { MemberHasRow(w.log, p); }
  }

  // ---- Links ----

  ghost function LinksWith(ids: map<string, nat>, rows: seq<CRow>, op: Op): set<(nat, nat)> {
    set i | 0 <= i < |rows| && rows[i].op == op :: LinkOf(ids, rows[i])
  }

  lemma LinksWithLast(ids: map<string, nat>, rows: seq<CRow>, op: Op)
    requires rows != []
    ensures var n := |rows| - 1;
            LinksWith(ids, rows, op) ==
            LinksWith(ids, rows[..n], op) + if rows[n].op == op then {LinkOf(ids, rows[n])} else {}
  {
    var n := |rows| - 1;
    assert forall i | 0 <= i < n :: rows[..n][i] == rows[i];
  }

  /** The block's rows are its certifications followed by the expiries. */
  ghost predicate CreationsFirst(rows: seq<CRow>) {
    forall i, j | 0 <= i < j < |rows| && rows[j].op == Create :: rows[i].op == Create
  }

  lemma {:induction false} LinkedMeans(links: set<(nat, nat)>, ids: map<string, nat>, rows: seq<CRow>)
    requires CreationsFirst(rows)
    ensures Linked(links, ids, rows, false) == links + LinksWith(ids, rows, Create) - LinksWith(ids, rows, Update)
    ensures Linked(links, ids, rows, true) == links - LinksWith(ids, rows, Create) + LinksWith(ids, rows, Update)
  {
    if rows != [] {
      var n := |rows| - 1;
      assert CreationsFirst(rows[..n]);
      LinkedMeans(links, ids, rows[..n]);
      LinksWithLast(ids, rows, Create);
      LinksWithLast(ids, rows, Update);
      if rows[n].op == Create {
        NoUpdates(ids, rows[..n]);
      }
    }
  }

  lemma NoUpdates(ids: map<string, nat>, rows: seq<CRow>)
    requires forall i | 0 <= i < |rows| :: rows[i].op == Create
    ensures LinksWith(ids, rows, Update) == {}
  {}

  /** Applying then reverting restores the links exactly when every expired link existed and every
      created link that existed already expires in the same block. Fresh links are enough for the
      latter; a replayed certification breaks it. */
  lemma LinksAreRestoredIff(links: set<(nat, nat)>, ids: map<string, nat>, rows: seq<CRow>)
    requires CreationsFirst(rows)
    ensures Linked(Linked(links, ids, rows, false), ids, rows, true) == links <==>
            && LinksWith(ids, rows, Update) <= links
            && LinksWith(ids, rows, Create) * links <= LinksWith(ids, rows, Update)
  {
    LinkedMeans(links, ids, rows);
    LinkedMeans(Linked(links, ids, rows, false), ids, rows);
    var cs, us := LinksWith(ids, rows, Create), LinksWith(ids, rows, Update);
    var back := Linked(Linked(links, ids, rows, false), ids, rows, true);
    assert back == (links - cs) + us;
    if us <= links && cs * links <= us {
      forall l | l in links ensures l in back {
        assert l in cs ==> l in cs * links;
      }
    }
    if back == links {
      forall l | l in cs * links ensures l in us {
        assert l in back;
      }
    }
  }

  /** Applying an accepted block and reverting it is the identity on the three indexes, the nodes,
      the identities' node numbers and the member flags, and on the links under the exact condition. */
  lemma RevertUndoesSave(w: Web, b: IdtyBlock, marks: seq<IRow>, certs: seq<CRow>, after: Web, back: Web)
    requires SoundWeb(w, b.number) && IdtyRules(w.log, b) && KnownJoiners(w, b)
    requires CreationsFirst(certs)
    requires Saved(w, b, marks, certs, after) && Reverted(after, b.number, back)
    ensures back.log == w.log && back.mindex == w.mindex && back.cindex == w.cindex
    ensures back.nodes == w.nodes && back.ids == w.ids && back.flags == w.flags
    ensures back == w <==>
            && LinksWith(after.ids, certs, Update) <= w.links
            && LinksWith(after.ids, certs, Create) * w.links <= LinksWith(after.ids, certs, Update)
  {
    RevertedRows(w, b, marks, certs, after);
    RevertRestoresNodes(w, b, marks, certs, after, back);
    RevertRestoresFlags(w, b, marks, certs, after, back);
    LinksAreRestoredIff(w.links, after.ids, certs);
  }
}
