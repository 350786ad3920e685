/** What the identity rows of a block and the identity stores say, row by row and key by key. */
module IdentityRows {
  import opened Outcomes
  import opened Sources
  import opened Identities
  import opened Membership
  import opened Wot
  import opened WotRevert
  import opened WotLinks
  import R = Reduction

  // ---- The rows of a block ----

  lemma {:induction false} NewcomersStayFirst(b: IdtyBlock, n: nat)
    requires n <= |b.joiners|
    ensures NewcomerRows(b, |b.identities|) <= AfterJoiners(b, n).0
  {
    if n > 0 {
      NewcomersStayFirst(b, n - 1);
      AfterJoinersStep(b, n);
    }
  }

  /** The identities come first, in their order; they are new members and not to be kicked. */
  lemma NewcomersComeFirst(b: IdtyBlock, i: nat)
    requires i < |b.identities|
    ensures i < |LocalIRows(b)|
    ensures LocalIRows(b)[i] == IRow(Create, b.identities[i], Some(true), Some(false), b.number)
  {
    NewcomersStayFirst(b, |b.joiners|);
    NewcomerRowsMean(b, |b.identities|);
  }

  lemma JoinersRows(b: IdtyBlock, r: IRow)
    ensures r in AfterJoiners(b, |b.joiners|).0 <==>
            || (r.pub in b.identities && r == IRow(Create, r.pub, Some(true), Some(false), b.number))
            || (r.pub in b.joiners && r.pub !in b.identities && r == IRow(Update, r.pub, Some(true), None, b.number))
  {
    var n := |b.joiners|;
    assert b.joiners[..n] == b.joiners;
    if r in AfterJoiners(b, n).0 {
      JoinersEnter(b, n, r);
    }
    if r.pub in b.identities || r.pub in b.joiners {
      JoinersAreListed(b, n, r.pub);
      var x :| x in AfterJoiners(b, n).0 && x.pub == r.pub;
      JoinersEnter(b, n, x);
    }
  }

  /** The identity rows: new identities are created as members, other joiners become members again
      and keep what was said of kicking them, excluded keys are no members and not to be kicked. */
  lemma IdentityRowsMean(b: IdtyBlock, r: IRow)
    ensures r in LocalIRows(b) <==>
            || (r.pub in b.identities && r == IRow(Create, r.pub, Some(true), Some(false), b.number))
            || (r.pub in b.joiners && r.pub !in b.identities && r == IRow(Update, r.pub, Some(true), None, b.number))
            || (r.pub in b.excluded && r == IRow(Update, r.pub, Some(false), Some(false), b.number))
  {
    JoinersRows(b, r);
    var rows := ExcludedRows(b, |b.excluded|);
    ExcludedRowsMean(b, |b.excluded|);
    if r.pub in b.excluded {
      var i :| 0 <= i < |b.excluded| && b.excluded[i] == r.pub;
      assert rows[i] == ExcludedRow(b, r.pub);
    }
  }

  lemma {:induction false} JoinersMemberships(b: IdtyBlock, n: nat, m: MRow)
    requires n <= |b.joiners| && NoDuplicate(b.joiners)
    ensures m in AfterJoiners(b, n).1 <==>
            m.pub in b.joiners[..n] &&
            m == if m.pub in b.identities then MRow(Create, m.pub, false) else MRow(Update, m.pub, true)
  {
    if n > 0 {
      JoinersMemberships(b, n - 1, m);
      AfterJoinersStep(b, n);
      var rows, pub := AfterJoiners(b, n - 1).0, b.joiners[n - 1];
      assert b.joiners[..n] == b.joiners[..n - 1] + [pub];
      if pub in b.identities {
        JoinersAreListed(b, n - 1, pub);
      } else if Has(rows, pub) {
        var r :| r in rows && r.pub == pub;
        JoinersEnter(b, n - 1, r);
        assert false;
      }
    }
  }

  /** The membership rows: a joiner with an identity in the block is a newcomer, another one joins
      back; the memberships of active, leaving and revoked keys are updated. */
  lemma MembershipRowsMean(b: IdtyBlock, m: MRow)
    requires NoDuplicate(b.joiners)
    ensures m in LocalMRows(b) <==>
            || (m.pub in b.joiners && m.pub in b.identities && m == MRow(Create, m.pub, false))
            || (m.pub in b.joiners && m.pub !in b.identities && m == MRow(Update, m.pub, true))
            || (m.pub in b.actives + b.leavers + b.revoked && m == MRow(Update, m.pub, false))
  {
    JoinersMemberships(b, |b.joiners|, m);
    assert b.joiners[..|b.joiners|] == b.joiners;
    OtherRowsMean(b.actives, m);
    OtherRowsMean(b.leavers, m);
    OtherRowsMean(b.revoked, m);
  }

  lemma OtherRowsMean(pubs: seq<string>, m: MRow)
    ensures m in OtherRows(pubs) <==> m.pub in pubs && m == MRow(Update, m.pub, false)
  {
    if m.pub in pubs {
      var i :| 0 <= i < |pubs| && pubs[i] == m.pub;
      assert OtherRows(pubs)[i] == MRow(Update, m.pub, false);
    }
  }

  // ---- What the rows of a key say ----

  /** The last row of the key that says whether it is a member says `value`. */
  ghost predicate SaysMember(log: seq<IRow>, pub: string, value: bool) {
    exists i | 0 <= i < |log| :: LastOnMember(log, pub, value, i)
  }

  ghost predicate LastOnMember(log: seq<IRow>, pub: string, value: bool, i: nat)
    requires i < |log|
  {
    && log[i].pub == pub && log[i].member == Some(value)
    && forall j | i < j < |log| && log[j].pub == pub :: log[j].member.None?
  }

  lemma {:induction false} MemberMeans(log: seq<IRow>, pub: string, value: bool)
    ensures Member(log, pub) == Some(value) <==> SaysMember(log, pub, value)
  {
    if log != [] {
      var n := |log| - 1;
      var front, r := log[..n], log[n];
      MemberMeans(front, pub, value);
      if r.pub == pub && r.member.Some? {
        if r.member == Some(value) { assert LastOnMember(log, pub, value, n); }
      } else {
        if i :| 0 <= i < n && LastOnMember(front, pub, value, i) {
          assert LastOnMember(log, pub, value, i);
        }
        if i :| 0 <= i < |log| && LastOnMember(log, pub, value, i) {
          assert LastOnMember(front, pub, value, i);
        }
      }
    }
  }

  /** The last row of the key that says whether it is to be kicked says that it is. */
  ghost predicate LastKicks(log: seq<IRow>, pub: string, i: nat)
    requires i < |log|
  {
    && log[i].pub == pub && log[i].kick == Some(true)
    && forall j | i < j < |log| && log[j].pub == pub :: log[j].kick.None?
  }

  lemma OneMoreRecord(log: seq<IRow>, pub: string)
    requires log != []
    ensures var front, r := log[..|log| - 1], log[|log| - 1];
            IsMarked(log, pub) <==> if r.pub == pub && r.kick.Some? then r.kick == Some(true) else IsMarked(front, pub)
  {
    var front, r := log[..|log| - 1], log[|log| - 1];
    var records := RecordsOf(front, pub);
    assert (records + [AsRecord(r)])[..|records|] == records;
    assert "member" != "kick" by { assert "member"[0] == 'm'; }
    if r.pub == pub {
      var before, after := R.Reduced(records), R.Reduced(records + [AsRecord(r)]);
      assert after == R.Merge(before, AsRecord(r));
      assert after.fields["kick"] == R.MergeField(before, AsRecord(r), "kick");
    }
  }

  /** A key is marked when the last row that says so asks for its exclusion. */
  lemma {:induction false} MarkedMeans(log: seq<IRow>, pub: string)
    ensures IsMarked(log, pub) <==> exists i | 0 <= i < |log| :: LastKicks(log, pub, i)
  {
    if log != [] {
      var n := |log| - 1;
      var front, r := log[..n], log[n];
      OneMoreRecord(log, pub);
      MarkedMeans(front, pub);
      if r.pub == pub && r.kick.Some? {
        if r.kick == Some(true) { assert LastKicks(log, pub, n); }
      } else {
        if i :| 0 <= i < n && LastKicks(front, pub, i) {
          assert LastKicks(log, pub, i);
        }
        if i :| 0 <= i < |log| && LastKicks(log, pub, i) {
          assert LastKicks(front, pub, i);
        }
      }
    }
  }

  lemma {:induction false} SilentRows(log: seq<IRow>, rows: seq<IRow>, pub: string)
    requires forall r | r in rows && r.pub == pub :: r.kick.None?
    ensures IsMarked(log + rows, pub) <==> IsMarked(log, pub)
  {
    if rows == [] {
      assert log + rows == log;
    } else {
      var n := |rows| - 1;
      OneMoreRecord(log + rows, pub);
      assert (log + rows)[..|log + rows| - 1] == log + rows[..n];
      assert rows[n] in rows;
      SilentRows(log, rows[..n], pub);
    }
  }

  lemma {:induction false} ClearingRows(log: seq<IRow>, rows: seq<IRow>, pub: string)
    requires forall r | r in rows && r.pub == pub && r.kick.Some? :: r.kick == Some(false)
    requires exists r | r in rows :: r.pub == pub && r.kick.Some?
    ensures !IsMarked(log + rows, pub)
  {
    var n := |rows| - 1;
    OneMoreRecord(log + rows, pub);
    assert (log + rows)[..|log + rows| - 1] == log + rows[..n];
    assert rows[n] in rows;
    if !(rows[n].pub == pub && rows[n].kick.Some?) {
      ClearingRows(log, rows[..n], pub);
    }
  }

  /** A block takes the mark off its new and its excluded identities, and off no other key. */
  lemma MarkedAfter(log: seq<IRow>, b: IdtyBlock, pub: string)
    ensures IsMarked(log + LocalIRows(b), pub) <==>
            IsMarked(log, pub) && pub !in b.identities && pub !in b.excluded
  {
    var rows := LocalIRows(b);
    forall r | r in rows && r.pub == pub
      ensures pub !in b.identities && pub !in b.excluded ==> r.kick.None?
      ensures r.kick.Some? ==> r.kick == Some(false)
    {
      IdentityRowsMean(b, r);
    }
    if pub in b.identities {
      IdentityRowsMean(b, IRow(Create, pub, Some(true), Some(false), b.number));
      ClearingRows(log, rows, pub);
    } else if pub in b.excluded {
      IdentityRowsMean(b, IRow(Update, pub, Some(false), Some(false), b.number));
      ClearingRows(log, rows, pub);
    } else {
      SilentRows(log, rows, pub);
    }
  }

  // ---- The web of trust ----

  /** In sound stores every known key has a node and a flag, both true exactly for members, and no
      two keys share a node. */
  lemma NodesMean(w: Web, next: nat, p: string)
    requires SoundWeb(w, next) && p in w.ids
    ensures p in w.flags && w.ids[p] < |w.nodes|
    ensures w.nodes[w.ids[p]] == w.flags[p] == SaysMember(w.log, p, true)
    ensures forall q | q in w.ids && w.ids[q] == w.ids[p] :: q == p
  {
    assert NodeIs(w, p) && FlagIs(w, p);
    IsMember(w.log, p);
    MemberMeans(w.log, p, true);
  }

  /** The new identities of a block get the next nodes, in their order; the other keys keep theirs. */
  lemma NewNodes(w: Web, b: IdtyBlock, marks: seq<IRow>, certs: seq<CRow>, after: Web)
    requires SoundWeb(w, b.number) && IdtyRules(w.log, b) && KnownJoiners(w, b)
    requires Saved(w, b, marks, certs, after)
    ensures forall i | 0 <= i < |b.identities| ::
              b.identities[i] in after.ids && after.ids[b.identities[i]] == |w.nodes| + i
    ensures forall p | p in w.ids :: p in after.ids && after.ids[p] == w.ids[p]
    ensures |after.nodes| == |w.nodes| + |b.identities|
  {
    IdsAfter(w, b, marks, certs, after);
    forall i | 0 <= i < |b.identities|
      ensures b.identities[i] in after.ids && after.ids[b.identities[i]] == |w.nodes| + i
    {
      assert Assigned(after.ids, b.identities, |w.nodes|, i);
    }
  }

  /** The last row about a pair certifies it. */
  ghost predicate LastCertifies(log: seq<Dated<CRow>>, issuer: string, receiver: string, i: nat)
    requires i < |log|
  {
    && log[i].row.issuer == issuer && log[i].row.receiver == receiver && log[i].row.op == Create
    && forall j | i < j < |log| :: log[j].row.issuer != issuer || log[j].row.receiver != receiver
  }

  lemma {:induction false} LiveMeans(log: seq<Dated<CRow>>, issuer: string, receiver: string)
    ensures IsLive(log, issuer, receiver) <==> exists i | 0 <= i < |log| :: LastCertifies(log, issuer, receiver, i)
  {
    if log != [] {
      var n := |log| - 1;
      var front, c := log[..n], log[n].row;
      LiveMeans(front, issuer, receiver);
      if c.issuer == issuer && c.receiver == receiver {
        if c.op == Create { assert LastCertifies(log, issuer, receiver, n); }
      } else {
        if i :| 0 <= i < n && LastCertifies(front, issuer, receiver, i) {
          assert LastCertifies(log, issuer, receiver, i);
        }
        if i :| 0 <= i < |log| && LastCertifies(log, issuer, receiver, i) {
          assert LastCertifies(front, issuer, receiver, i);
        }
      }
    }
  }

  /** With sound links, the node of a key is linked to the node of another one exactly when the last
      row about the pair is a certification of the second by the first. */
  lemma LinksMean(w: Web, p: string, q: string)
    requires SoundLinks(w) && p in w.ids && q in w.ids
    ensures (w.ids[p], w.ids[q]) in w.links <==> exists i | 0 <= i < |w.cindex| :: LastCertifies(w.cindex, p, q, i)
  {
    assert LinkIs(w.ids, w.links, w.cindex, p, q);
    LiveMeans(w.cindex, p, q);
  }
}
