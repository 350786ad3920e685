/** The links of the web of trust are the valid certifications, in every reachable state. What this
    gives for reverting a block: the links come back unless a certification was replayed. */
module WotLinks {
  import opened Outcomes
  import opened Sources
  import opened Identities
  import opened Wot
  import opened WotRevert

  /** The last row about a pair of keys. */
  function LastRow(log: seq<Dated<CRow>>, issuer: string, receiver: string): Option<CRow> {
    if log == [] then None
    else
      var c := log[|log| - 1].row;
      if c.issuer == issuer && c.receiver == receiver then Some(c) else LastRow(log[..|log| - 1], issuer, receiver)
  }

  /** The certification of a pair is valid: writing it again is a replay (BR_G44). */
  predicate IsLive(log: seq<Dated<CRow>>, issuer: string, receiver: string) {
    var last := LastRow(log, issuer, receiver);
    last.Some? && last.value.op == Create
  }

  /** The certification rows of a block: certifications, then the expiries of valid ones (BR_G92). */
  ghost predicate CertRules(w: Web, certs: seq<CRow>, ids: map<string, nat>) {
    && CreationsFirst(certs) && AllKnown(ids, certs)
    && forall i | 0 <= i < |certs| && certs[i].op == Update :: IsLive(w.cindex, certs[i].issuer, certs[i].receiver)
  }

  /** BR_G71: a replay comes after the time from which the certification may be replayed. */
  ghost predicate ReplayRule(w: Web, certs: seq<CRow>, medianTime: nat) {
    forall i | 0 <= i < |certs| && certs[i].op == Create && IsLive(w.cindex, certs[i].issuer, certs[i].receiver) ::
      LastRow(w.cindex, certs[i].issuer, certs[i].receiver).value.replayableOn < medianTime
  }

  ghost predicate LinkIs(ids: map<string, nat>, links: set<(nat, nat)>, log: seq<Dated<CRow>>, p: string, q: string)
    requires p in ids && q in ids
  {
    (ids[p], ids[q]) in links <==> IsLive(log, p, q)
  }

  ghost predicate LinksAre(ids: map<string, nat>, links: set<(nat, nat)>, log: seq<Dated<CRow>>) {
    forall p, q | p in ids && q in ids :: LinkIs(ids, links, log, p, q)
  }

  ghost predicate Injective(ids: map<string, nat>) {
    forall p, q | p in ids && q in ids && p != q :: ids[p] != ids[q]
  }

  ghost predicate LinksBelow(links: set<(nat, nat)>, n: nat) {
    forall l | l in links :: l.0 < n && l.1 < n
  }

  ghost predicate RowsKnown(log: seq<Dated<CRow>>, ids: map<string, nat>) {
    forall i | 0 <= i < |log| :: log[i].row.issuer in ids && log[i].row.receiver in ids
  }

  /** The links are exactly the valid certifications. */
  ghost predicate SoundLinks(w: Web) {
    LinksAre(w.ids, w.links, w.cindex) && LinksBelow(w.links, |w.nodes|) && RowsKnown(w.cindex, w.ids)
  }

  lemma {:induction false} LiveRowIsKnown(log: seq<Dated<CRow>>, ids: map<string, nat>, p: string, q: string)
    requires RowsKnown(log, ids) && IsLive(log, p, q)
    ensures p in ids && q in ids
  {
    var c := log[|log| - 1].row;
    if !(c.issuer == p && c.receiver == q) {
      LiveRowIsKnown(log[..|log| - 1], ids, p, q);
    }
  }

  /** `updateWotbLinks` follows the rows. */
  lemma {:induction false} LinkedFollows(
      ids: map<string, nat>, links: set<(nat, nat)>, log: seq<Dated<CRow>>, rows: seq<CRow>, number: nat,
      p: string, q: string)
    requires Injective(ids) && AllKnown(ids, rows) && p in ids && q in ids && LinkIs(ids, links, log, p, q)
    ensures LinkIs(ids, Linked(links, ids, rows, false), log + Stamped(rows, number), p, q)
  {
    var all := log + Stamped(rows, number);
    if rows == [] {
      assert all == log;
    } else {
      var n := |rows| - 1;
      LinkedFollows(ids, links, log, rows[..n], number, p, q);
      assert all[..|all| - 1] == log + Stamped(rows[..n], number);
      assert all[|all| - 1].row == rows[n];
      var c := rows[n];
      assert LinkOf(ids, c) == (ids[p], ids[q]) <==> c.issuer == p && c.receiver == q;
    }
  }

  lemma {:induction false} LinkedIsBelow(ids: map<string, nat>, links: set<(nat, nat)>, rows: seq<CRow>, n: nat)
    requires LinksBelow(links, n) && AllKnown(ids, rows) && forall p | p in ids :: ids[p] < n
    ensures LinksBelow(Linked(links, ids, rows, false), n)
  {
    if rows != [] {
      LinkedIsBelow(ids, links, rows[..|rows| - 1], n);
    }
  }

  /** New nodes have no links yet. */
  lemma LinksOfNewNodes(w: Web, b: IdtyBlock, marks: seq<IRow>, certs: seq<CRow>, after: Web, p: string, q: string)
    requires SoundWeb(w, b.number) && SoundLinks(w) && IdtyRules(w.log, b) && KnownJoiners(w, b)
    requires Saved(w, b, marks, certs, after) && p in after.ids && q in after.ids
    ensures LinkIs(after.ids, w.links, w.cindex, p, q)
  {
    IdsAfter(w, b, marks, certs, after);
    if p in w.ids && q in w.ids {
      assert LinkIs(w.ids, w.links, w.cindex, p, q);
    } else {
      if IsLive(w.cindex, p, q) {
        LiveRowIsKnown(w.cindex, w.ids, p, q);
        assert false;
      }
      NewNodeIsHigh(w, b, marks, certs, after, if p in w.ids then q else p);
    }
  }

  lemma NewNodeIsHigh(w: Web, b: IdtyBlock, marks: seq<IRow>, certs: seq<CRow>, after: Web, p: string)
    requires SoundWeb(w, b.number) && IdtyRules(w.log, b) && KnownJoiners(w, b)
    requires Saved(w, b, marks, certs, after) && p in after.ids && p !in w.ids
    ensures after.ids[p] >= |w.nodes|
  {
    IdsAfter(w, b, marks, certs, after);
    assert p in ToSet(b.identities);
    var i :| 0 <= i < |b.identities| && b.identities[i] == p;
    assert Assigned(after.ids, b.identities, |w.nodes|, i);
  }

  lemma LinkStays(w: Web, b: IdtyBlock, marks: seq<IRow>, certs: seq<CRow>, after: Web, p: string, q: string)
    requires SoundWeb(w, b.number) && SoundLinks(w) && IdtyRules(w.log, b) && KnownJoiners(w, b)
    requires Saved(w, b, marks, certs, after) && SoundWeb(after, b.number + 1)
    requires CertRules(w, certs, after.ids) && p in after.ids && q in after.ids
    ensures LinkIs(after.ids, after.links, after.cindex, p, q)
  {
    LinksOfNewNodes(w, b, marks, certs, after, p, q);
    LinkedFollows(after.ids, w.links, w.cindex, certs, b.number, p, q);
  }

  lemma LinksStayBelow(w: Web, b: IdtyBlock, marks: seq<IRow>, certs: seq<CRow>, after: Web)
    requires SoundWeb(w, b.number) && SoundLinks(w) && IdtyRules(w.log, b) && KnownJoiners(w, b)
    requires Saved(w, b, marks, certs, after) && SoundWeb(after, b.number + 1)
    requires CertRules(w, certs, after.ids)
    ensures LinksBelow(after.links, |after.nodes|)
  {
    IdsAfter(w, b, marks, certs, after);
    forall p | p in after.ids ensures after.ids[p] < |after.nodes| {
      assert NodeIs(after, p);
    }
    LinkedIsBelow(after.ids, w.links, certs, |after.nodes|);
  }

  lemma RowsStayKnown(w: Web, b: IdtyBlock, marks: seq<IRow>, certs: seq<CRow>, after: Web)
    requires SoundWeb(w, b.number) && SoundLinks(w) && IdtyRules(w.log, b) && KnownJoiners(w, b)
    requires Saved(w, b, marks, certs, after) && CertRules(w, certs, after.ids)
    ensures RowsKnown(after.cindex, after.ids)
  {
    IdsAfter(w, b, marks, certs, after);
    assert w.ids.Keys <= after.ids.Keys;
  }

  /** Saving an accepted block keeps the links in step with the certifications. */
  lemma LinksStaySound(w: Web, b: IdtyBlock, marks: seq<IRow>, certs: seq<CRow>, after: Web)
    requires SoundWeb(w, b.number) && SoundLinks(w) && IdtyRules(w.log, b) && KnownJoiners(w, b)
    requires Saved(w, b, marks, certs, after) && SoundWeb(after, b.number + 1)
    requires CertRules(w, certs, after.ids)
    ensures SoundLinks(after)
  {
    forall p, q | p in after.ids && q in after.ids ensures LinkIs(after.ids, after.links, after.cindex, p, q) {
      LinkStays(w, b, marks, certs, after, p, q);
    }
    LinksStayBelow(w, b, marks, certs, after);
    RowsStayKnown(w, b, marks, certs, after);
  }

  // ---- Reverting ----

  /** Row `i` writes a valid certification again, and the block does not expire it. */
  ghost predicate StaysReplayed(w: Web, certs: seq<CRow>, i: nat)
    requires i < |certs|
  {
    && certs[i].op == Create && IsLive(w.cindex, certs[i].issuer, certs[i].receiver)
    && forall j | 0 <= j < |certs| && certs[j].op == Update ::
         certs[j].issuer != certs[i].issuer || certs[j].receiver != certs[i].receiver
  }

  ghost predicate NoReplayStays(w: Web, certs: seq<CRow>) {
    forall i | 0 <= i < |certs| :: !StaysReplayed(w, certs, i)
  }

  lemma LinkOfRow(w: Web, b: IdtyBlock, marks: seq<IRow>, certs: seq<CRow>, after: Web, c: CRow)
    requires SoundWeb(w, b.number) && SoundLinks(w) && IdtyRules(w.log, b) && KnownJoiners(w, b)
    requires Saved(w, b, marks, certs, after)
    requires c.issuer in after.ids && c.receiver in after.ids
    ensures LinkOf(after.ids, c) in w.links <==> IsLive(w.cindex, c.issuer, c.receiver)
  {
    LinksOfNewNodes(w, b, marks, certs, after, c.issuer, c.receiver);
  }

  lemma ExpiredLinksExist(w: Web, b: IdtyBlock, marks: seq<IRow>, certs: seq<CRow>, after: Web)
    requires SoundWeb(w, b.number) && SoundLinks(w) && IdtyRules(w.log, b) && KnownJoiners(w, b)
    requires Saved(w, b, marks, certs, after) && CertRules(w, certs, after.ids)
    ensures LinksWith(after.ids, certs, Update) <= w.links
  {
    forall l | l in LinksWith(after.ids, certs, Update) ensures l in w.links {
      var i :| 0 <= i < |certs| && certs[i].op == Update && LinkOf(after.ids, certs[i]) == l;
      LinkOfRow(w, b, marks, certs, after, certs[i]);
    }
  }

  lemma ReplayedLinks(w: Web, b: IdtyBlock, marks: seq<IRow>, certs: seq<CRow>, after: Web)
    requires SoundWeb(w, b.number) && SoundLinks(w) && IdtyRules(w.log, b) && KnownJoiners(w, b)
    requires Saved(w, b, marks, certs, after) && CertRules(w, certs, after.ids) && SoundWeb(after, b.number + 1)
    ensures LinksWith(after.ids, certs, Create) * w.links <= LinksWith(after.ids, certs, Update) <==>
            NoReplayStays(w, certs)
  {
    var ids := after.ids;
    if NoReplayStays(w, certs) {
      forall l | l in LinksWith(ids, certs, Create) * w.links ensures l in LinksWith(ids, certs, Update) {
        var i :| 0 <= i < |certs| && certs[i].op == Create && LinkOf(ids, certs[i]) == l;
        LinkOfRow(w, b, marks, certs, after, certs[i]);
        assert !StaysReplayed(w, certs, i);
      }
    } else {
      var i :| 0 <= i < |certs| && StaysReplayed(w, certs, i);
      LinkOfRow(w, b, marks, certs, after, certs[i]);
      assert LinkOf(ids, certs[i]) in LinksWith(ids, certs, Create) * w.links;
      forall j | 0 <= j < |certs| && certs[j].op == Update ensures LinkOf(ids, certs[j]) != LinkOf(ids, certs[i]) {
      }
    }
  }

  /** Applying an accepted block and reverting it restores the identity stores as they were, if and
      only if the block replays no certification, apart from those that expire in it. */
  lemma WebIsRestoredIff(w: Web, b: IdtyBlock, marks: seq<IRow>, certs: seq<CRow>, after: Web, back: Web)
    requires SoundWeb(w, b.number) && SoundLinks(w) && IdtyRules(w.log, b) && KnownJoiners(w, b)
    requires Saved(w, b, marks, certs, after) && CertRules(w, certs, after.ids) && SoundWeb(after, b.number + 1)
    requires Reverted(after, b.number, back)
    ensures back == w <==> NoReplayStays(w, certs)
    ensures back == w.(links := back.links)
  {
    RevertUndoesSave(w, b, marks, certs, after, back);
    ExpiredLinksExist(w, b, marks, certs, after);
    ReplayedLinks(w, b, marks, certs, after);
  }
}
