/** The web of trust nodes, its links and the member flags of the dividend store: what saving a
    block does to them, and what reverting it does. */
module Wot {
  import opened Outcomes
  import opened Sources
  import opened Identities
  import opened Membership

  /** A row of the certification index: a certification, replayable from some median time on, or
      its expiry. */
  datatype CRow = CRow(op: Op, issuer: string, receiver: string, replayableOn: nat)

  /** A row of an index and the block that wrote it. */
  datatype Dated<T> = Dated(row: T, writtenOn: nat)

  /** The identity stores: the three indexes, the nodes (enabled or not), the node of each identity,
      the links and the member flags of the dividend entries. */
  datatype Web = Web(
    log: seq<IRow>, mindex: seq<Dated<MRow>>, cindex: seq<Dated<CRow>>,
    nodes: seq<bool>, ids: map<string, nat>, links: set<(nat, nat)>, flags: map<string, bool>)

  // ---- The loops, as functions ----

  function Enabled(nodes: seq<bool>, ids: map<string, nat>, pubs: seq<string>, value: bool): seq<bool> {
    if pubs == [] then nodes
    else
      var front, p := Enabled(nodes, ids, pubs[..|pubs| - 1], value), pubs[|pubs| - 1];
      if p in ids && ids[p] < |front| then front[ids[p] := value] else front
  }

  function Flagged(flags: map<string, bool>, pubs: seq<string>, value: bool): map<string, bool> {
    if pubs == [] then flags else Flagged(flags, pubs[..|pubs| - 1], value)[pubs[|pubs| - 1] := value]
  }

  /** The keys of the rows that create an identity; of the rows that set `member` by an update. */
  function Creations(rows: seq<IRow>): seq<string> {
    if rows == [] then []
    else
      var front, r := Creations(rows[..|rows| - 1]), rows[|rows| - 1];
      if r.op == Create then front + [r.pub] else front
  }

  function Moves(rows: seq<IRow>, value: bool): seq<string> {
    if rows == [] then []
    else
      var front, r := Moves(rows[..|rows| - 1], value), rows[|rows| - 1];
      if r.op == Update && r.member == Some(value) then front + [r.pub] else front
  }

  function Pubs(rows: seq<IRow>): seq<string> {
    seq(|rows|, i requires 0 <= i < |rows| => rows[i].pub)
  }

  function WithNodes(nodes: seq<bool>, pubs: seq<string>): seq<bool> {
    nodes + seq(|pubs|, i => true)
  }

  function WithIds(ids: map<string, nat>, pubs: seq<string>, first: nat): map<string, nat> {
    if pubs == [] then ids
    else WithIds(ids, pubs[..|pubs| - 1], first)[pubs[|pubs| - 1] := first + |pubs| - 1]
  }

  function LinkOf(ids: map<string, nat>, c: CRow): (nat, nat) {
    (if c.issuer in ids then ids[c.issuer] else 0, if c.receiver in ids then ids[c.receiver] else 0)
  }

  /** `updateWotbLinks`, and the loop of `revertBlock` that undoes it. */
  function Linked(links: set<(nat, nat)>, ids: map<string, nat>, rows: seq<CRow>, undo: bool): set<(nat, nat)> {
    if rows == [] then links
    else
      var front, c := Linked(links, ids, rows[..|rows| - 1], undo), rows[|rows| - 1];
      if (c.op == Create) != undo then front + {LinkOf(ids, c)} else front - {LinkOf(ids, c)}
  }

  ghost predicate AllKnown(ids: map<string, nat>, rows: seq<CRow>) {
    forall i | 0 <= i < |rows| :: rows[i].issuer in ids && rows[i].receiver in ids
  }

  // ---- Dated rows ----

  function Stamped<T>(rows: seq<T>, number: nat): seq<Dated<T>> {
    seq(|rows|, i requires 0 <= i < |rows| => Dated(rows[i], number))
  }

  /** `removeBlock` */
  function Kept<T>(log: seq<Dated<T>>, number: nat): seq<Dated<T>> {
    if log == [] then []
    else
      var front, r := Kept(log[..|log| - 1], number), log[|log| - 1];
      if r.writtenOn == number then front else front + [r]
  }

  /** `getWrittenOn` */
  function WrittenBy<T>(log: seq<Dated<T>>, number: nat): seq<T> {
    if log == [] then []
    else
      var front, r := WrittenBy(log[..|log| - 1], number), log[|log| - 1];
      if r.writtenOn == number then front + [r.row] else front
  }

  ghost predicate Older<T>(log: seq<Dated<T>>, next: nat) {
    forall i | 0 <= i < |log| :: log[i].writtenOn < next
  }

  lemma {:induction false} OlderIsKept<T>(log: seq<Dated<T>>, number: nat)
    requires Older(log, number)
    ensures Kept(log, number) == log && WrittenBy(log, number) == []
  {
    if log != [] {
      OlderIsKept(log[..|log| - 1], number);
      assert log == log[..|log| - 1] + [log[|log| - 1]];
    }
  }

  /** What a block appended to an index is what a revert finds, and removes. */
  lemma {:induction false} AppendedIsRemoved<T>(log: seq<Dated<T>>, rows: seq<T>, number: nat)
    requires Older(log, number)
    ensures Kept(log + Stamped(rows, number), number) == log
    ensures WrittenBy(log + Stamped(rows, number), number) == rows
  {
    var all := log + Stamped(rows, number);
    if rows == [] {
      OlderIsKept(log, number);
      assert all == log;
    } else {
      var n := |rows| - 1;
      AppendedIsRemoved(log, rows[..n], number);
      assert all[..|all| - 1] == log + Stamped(rows[..n], number);
      assert rows == rows[..n] + [rows[n]];
    }
  }

  // ---- Saving and reverting a block ----

  /** The membership rows of a block: its local rows, then those that expire memberships and revoke
      implicitly, which are arbitrary here. */
  ghost predicate MembershipsSaved(before: seq<Dated<MRow>>, b: IdtyBlock, after: seq<Dated<MRow>>) {
    exists more: seq<MRow> :: after == before + Stamped(LocalMRows(b) + more, b.number)
  }

  ghost predicate Saved(w: Web, b: IdtyBlock, marks: seq<IRow>, certs: seq<CRow>, after: Web) {
    var rows := LocalIRows(b);
    var newcomers := Creations(rows);
    && Marks(marks) && (forall i | 0 <= i < |marks| :: marks[i].op == Update && marks[i].writtenOn == b.number)
    && after.log == w.log + rows + marks
    && MembershipsSaved(w.mindex, b, after.mindex)
    && after.cindex == w.cindex + Stamped(certs, b.number)
    && after.ids == WithIds(w.ids, newcomers, |w.nodes|)
    && after.nodes ==
       Enabled(Enabled(WithNodes(w.nodes, newcomers), after.ids, b.joiners, true), after.ids, b.excluded, false)
    && after.flags == Flagged(Flagged(Flagged(w.flags, Pubs(rows), true), b.joiners, true), b.excluded, false)
    && after.links == Linked(w.links, after.ids, certs, false)
  }

  function WithoutBlock(log: seq<IRow>, number: nat): seq<IRow> {
    if log == [] then []
    else
      var front, r := WithoutBlock(log[..|log| - 1], number), log[|log| - 1];
      if r.writtenOn == number then front else front + [r]
  }

  function OfBlock(log: seq<IRow>, number: nat): seq<IRow> {
    if log == [] then []
    else
      var front, r := OfBlock(log[..|log| - 1], number), log[|log| - 1];
      if r.writtenOn == number then front + [r] else front
  }

  function Popped(nodes: seq<bool>, count: nat): seq<bool> {
    if count <= |nodes| then nodes[..|nodes| - count] else []
  }

  /** `undoMembersUpdate`: join backs, newcomers and excluded, in this order. */
  ghost predicate MembersUndone(nodes: seq<bool>, ids: map<string, nat>, flags: map<string, bool>, rows: seq<IRow>,
                                nodes': seq<bool>, flags': map<string, bool>)
  {
    var newcomers := Creations(rows);
    && nodes' ==
       Enabled(Popped(Enabled(nodes, ids, Moves(rows, true), false), |newcomers|), ids, Moves(rows, false), true)
    && flags' ==
       Flagged(Flagged(flags, Moves(rows, true), false) - ToSet(newcomers), Moves(rows, false), true)
  }

  /** `revertBlock`: links, nodes and flags, then the rows of the block. */
  ghost predicate Reverted(w: Web, number: nat, after: Web) {
    var rows := OfBlock(w.log, number);
    var newcomers := Creations(rows);
    && after.log == WithoutBlock(w.log, number)
    && after.mindex == Kept(w.mindex, number)
    && after.cindex == Kept(w.cindex, number)
    && after.links == Linked(w.links, w.ids, WrittenBy(w.cindex, number), true)
    && after.ids == w.ids - ToSet(newcomers)
    && MembersUndone(w.nodes, w.ids, w.flags, rows, after.nodes, after.flags)
  }

  // ---- What the stores keep ----

  ghost predicate NodeIs(w: Web, p: string)
    requires p in w.ids
  {
    w.ids[p] < |w.nodes| && w.nodes[w.ids[p]] == (p in Members(w.log))
  }

  ghost predicate FlagIs(w: Web, p: string)
    requires p in w.flags
  {
    w.flags[p] == (p in Members(w.log))
  }

  ghost predicate HasOwner(ids: map<string, nat>, k: nat) {
    exists p | p in ids :: ids[p] == k
  }

  /** Identities have a node and a dividend entry, enabled and flagged when they are members. */
  ghost predicate SoundWeb(w: Web, next: nat) {
    && (forall p :: p in w.ids <==> Has(w.log, p))
    && w.flags.Keys == w.ids.Keys
    && (forall p | p in w.ids :: NodeIs(w, p)) && (forall p | p in w.flags :: FlagIs(w, p))
    && (forall p, q | p in w.ids && q in w.ids && p != q :: w.ids[p] != w.ids[q])
    && (forall k | 0 <= k < |w.nodes| :: HasOwner(w.ids, k))
    && (forall i | 0 <= i < |w.log| :: w.log[i].writtenOn < next)
    && Older(w.mindex, next) && Older(w.cindex, next)
  }

  /** A joiner who is not a newcomer has an identity: looking it up throws otherwise. */
  ghost predicate KnownJoiners(w: Web, b: IdtyBlock) {
    forall p | p in b.joiners && p !in b.identities :: p in w.ids
  }

  // ---- The loops, key by key ----

  ghost predicate Hits(ids: map<string, nat>, pubs: seq<string>, k: nat) {
    exists p | p in pubs :: p in ids && ids[p] == k
  }

  lemma {:induction false} EnabledAt(nodes: seq<bool>, ids: map<string, nat>, pubs: seq<string>, value: bool)
    ensures |Enabled(nodes, ids, pubs, value)| == |nodes|
    ensures forall k | 0 <= k < |nodes| ::
              Enabled(nodes, ids, pubs, value)[k] == if Hits(ids, pubs, k) then value else nodes[k]
  {
    if pubs != [] {
      var front, last := pubs[..|pubs| - 1], pubs[|pubs| - 1];
      EnabledAt(nodes, ids, front, value);
      assert pubs == front + [last];
      forall k | 0 <= k < |nodes|
        ensures Hits(ids, pubs, k) <==> Hits(ids, front, k) || (last in ids && ids[last] == k)
      {
        if Hits(ids, front, k) {
          var p :| p in front && p in ids && ids[p] == k;
          assert p in pubs;
        }
      }
    }
  }

  lemma {:induction false} FlaggedAt(flags: map<string, bool>, pubs: seq<string>, value: bool)
    ensures Flagged(flags, pubs, value).Keys == flags.Keys + ToSet(pubs)
    ensures forall p | p in Flagged(flags, pubs, value) ::
              Flagged(flags, pubs, value)[p] == if p in pubs then value else flags[p]
  {
    if pubs != [] {
      FlaggedAt(flags, pubs[..|pubs| - 1], value);
      assert pubs == pubs[..|pubs| - 1] + [pubs[|pubs| - 1]];
    }
  }

  ghost predicate Assigned(ids: map<string, nat>, pubs: seq<string>, first: nat, i: nat)
    requires i < |pubs|
  {
    pubs[i] in ids && ids[pubs[i]] == first + i
  }

  lemma {:induction false} WithIdsKeys(ids: map<string, nat>, pubs: seq<string>, first: nat)
    ensures WithIds(ids, pubs, first).Keys == ids.Keys + ToSet(pubs)
    ensures forall p | p in ids && p !in pubs :: WithIds(ids, pubs, first)[p] == ids[p]
  {
    if pubs != [] {
      var n := |pubs| - 1;
      WithIdsKeys(ids, pubs[..n], first);
      assert pubs == pubs[..n] + [pubs[n]];
    }
  }

  lemma {:induction false} WithIdsAt(ids: map<string, nat>, pubs: seq<string>, first: nat, i: nat)
    requires NoDuplicate(pubs) && i < |pubs|
    ensures Assigned(WithIds(ids, pubs, first), pubs, first, i)
  {
    var n := |pubs| - 1;
    if i < n {
      var front := pubs[..n];
      assert pubs == front + [pubs[n]];
      PrefixHasNoDuplicate(front, [pubs[n]]);
      WithIdsAt(ids, front, first, i);
      assert front[i] == pubs[i] && pubs[i] != pubs[n];
    }
  }
}
