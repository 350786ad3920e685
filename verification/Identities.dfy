/** The identity side of a block: the rows of the local index, the rules on them, and why the
    member counter of the head is the number of members in every reachable state. */
module Identities {
  import opened Outcomes
  import opened Sources

  // A row of the identity index. The rows that mark somebody to be kicked say nothing on `member`.
  datatype IRow = IRow(op: Op, pub: string, member: Option<bool>, kick: Option<bool>, writtenOn: nat)

  // A row of the membership index: an update that resets `expired_on` is a join back.
  datatype MRow = MRow(op: Op, pub: string, joinsBack: bool)

  datatype IdtyBlock = IdtyBlock(
    number: nat, identities: seq<string>, joiners: seq<string>, actives: seq<string>,
    leavers: seq<string>, revoked: seq<string>, excluded: seq<string>)

  // ---- The local index ----

  function NewcomerRow(b: IdtyBlock, pub: string): IRow {
    IRow(Create, pub, Some(true), Some(false), b.number)
  }

  function JoinBackRow(b: IdtyBlock, pub: string): IRow {
    IRow(Update, pub, Some(true), None, b.number)
  }

  function ExcludedRow(b: IdtyBlock, pub: string): IRow {
    IRow(Update, pub, Some(false), Some(false), b.number)
  }

  predicate Has(rows: seq<IRow>, pub: string) {
    exists r | r in rows :: r.pub == pub
  }

  function NewcomerRows(b: IdtyBlock, n: nat): seq<IRow>
    requires n <= |b.identities|
  {
    if n == 0 then [] else NewcomerRows(b, n - 1) + [NewcomerRow(b, b.identities[n - 1])]
  }

  /** A joiner who matches a row written so far is a newcomer, the others join back. */
  function AfterJoiners(b: IdtyBlock, n: nat): (seq<IRow>, seq<MRow>)
    requires n <= |b.joiners|
  {
    if n == 0 then (NewcomerRows(b, |b.identities|), [])
    else
      var (rows, ms) := AfterJoiners(b, n - 1);
      var pub := b.joiners[n - 1];
      if Has(rows, pub) then (rows, ms + [MRow(Create, pub, false)])
      else (rows + [JoinBackRow(b, pub)], ms + [MRow(Update, pub, true)])
  }

  function ExcludedRows(b: IdtyBlock, n: nat): seq<IRow>
    requires n <= |b.excluded|
  {
    if n == 0 then [] else ExcludedRows(b, n - 1) + [ExcludedRow(b, b.excluded[n - 1])]
  }

  function OtherRows(pubs: seq<string>): seq<MRow> {
    seq(|pubs|, i requires 0 <= i < |pubs| => MRow(Update, pubs[i], false))
  }

  function LocalIRows(b: IdtyBlock): seq<IRow> {
    AfterJoiners(b, |b.joiners|).0 + ExcludedRows(b, |b.excluded|)
  }

  function LocalMRows(b: IdtyBlock): seq<MRow> {
    AfterJoiners(b, |b.joiners|).1 + OtherRows(b.actives) + OtherRows(b.leavers) + OtherRows(b.revoked)
  }

  /** The identity and membership parts of `localIndex` */
  method LocalIndex(b: IdtyBlock) returns (iindex: seq<IRow>, mindex: seq<MRow>)
    ensures iindex == LocalIRows(b) && mindex == LocalMRows(b)
  {
    iindex, mindex := [], [];
    for i := 0 to |b.identities|
      invariant iindex == NewcomerRows(b, i)
    {
      iindex := iindex + [NewcomerRow(b, b.identities[i])];
    }
    for j := 0 to |b.joiners|
      invariant (iindex, mindex) == AfterJoiners(b, j)
    {
      var pub := b.joiners[j];
      var matchesANewcomer := Has(iindex, pub);
      if matchesANewcomer {
        mindex := mindex + [MRow(Create, pub, false)];
      } else {
        mindex := mindex + [MRow(Update, pub, true)];
        iindex := iindex + [JoinBackRow(b, pub)];
      }
    }
    mindex := mindex + OtherRows(b.actives) + OtherRows(b.leavers) + OtherRows(b.revoked);
    ghost var before := iindex;
    for k := 0 to |b.excluded|
      invariant iindex == before + ExcludedRows(b, k)
    {
      iindex := iindex + [ExcludedRow(b, b.excluded[k])];
    }
  }

  // ---- The rules ----

  ghost predicate NoDuplicate(pubs: seq<string>) {
    forall i, j | 0 <= i < j < |pubs| :: pubs[i] != pubs[j]
  }

  lemma OneMoreKey(keys: seq<string>, k: string)
    ensures NoDuplicate(keys + [k]) <==> NoDuplicate(keys) && k !in keys
  {
    var all := keys + [k];
    assert all[|keys|] == k && forall i | 0 <= i < |keys| :: all[i] == keys[i];
    if NoDuplicate(all) {
      assert forall i, j | 0 <= i < j < |keys| :: all[i] != all[j];
    }
  }

  lemma PrefixHasNoDuplicate(xs: seq<string>, ys: seq<string>)
    requires NoDuplicate(xs + ys)
    ensures NoDuplicate(xs)
  {
    assert forall i | 0 <= i < |xs| :: (xs + ys)[i] == xs[i];
  }

  /** One of the loops of `checkPubkeyUnicity`: it stops at the first conflict. */
  method CollectKeys(list: seq<string>, pubkeys: seq<string>, conflict: bool)
    returns (collected: seq<string>, found: bool)
    requires conflict <==> !NoDuplicate(pubkeys)
    ensures found <==> !NoDuplicate(pubkeys + list)
    ensures !found ==> collected == pubkeys + list
    ensures found <==> !NoDuplicate(collected)
  {
    collected, found := pubkeys, conflict;
    var i := 0;
    while !found && i < |list|
      invariant 0 <= i <= |list|
      invariant found <==> !NoDuplicate(collected)
      invariant collected == pubkeys + list[..i]
    {
      var pubk := list[i];
      OneMoreKey(collected, pubk);
      assert list[..i + 1] == list[..i] + [pubk];
      found := pubk in collected;
      collected := collected + [pubk];
      i := i + 1;
    }
    assert pubkeys + list == collected + list[i..];
    if found && NoDuplicate(pubkeys + list) {
      PrefixHasNoDuplicate(collected, list[i..]);
    }
  }

  /** `checkPubkeyUnicity`: a key appears once in joiners, actives, leavers and excluded. */
  method CheckPubkeyUnicity(b: IdtyBlock) returns (ok: bool)
    ensures ok <==> NoDuplicate(b.joiners + b.actives + b.leavers + b.excluded)
  {
    var pubkeys, conflict := CollectKeys(b.joiners, [], false);
    assert [] + b.joiners == b.joiners;
    ghost var found := conflict;
    pubkeys, conflict := CollectMore(b.actives, b.joiners, pubkeys, conflict);
    pubkeys, conflict := CollectMore(b.leavers, b.joiners + b.actives, pubkeys, conflict);
    pubkeys, conflict := CollectMore(b.excluded, b.joiners + b.actives + b.leavers, pubkeys, conflict);
    ok := !conflict;
  }

  method CollectMore(list: seq<string>, ghost seen: seq<string>, pubkeys: seq<string>, conflict: bool)
    returns (collected: seq<string>, found: bool)
    requires conflict <==> !NoDuplicate(seen)
    requires conflict <==> !NoDuplicate(pubkeys)
    requires !conflict ==> pubkeys == seen
    ensures found <==> !NoDuplicate(seen + list)
    ensures found <==> !NoDuplicate(collected)
    ensures !found ==> collected == seen + list
  {
    collected, found := CollectKeys(list, pubkeys, conflict);
    if conflict {
      ghost var x, y :| 0 <= x < y < |seen| && seen[x] == seen[y];
      assert (seen + list)[x] == (seen + list)[y];
      ghost var v, w :| 0 <= v < w < |pubkeys| && pubkeys[v] == pubkeys[w];
      assert (pubkeys + list)[v] == (pubkeys + list)[w];
    }
  }

  /** What the rows of a key say of its membership: the last value given. */
  function Member(log: seq<IRow>, pub: string): Option<bool> {
    if log == [] then None
    else
      var r := log[|log| - 1];
      if r.pub == pub && r.member.Some? then r.member else Member(log[..|log| - 1], pub)
  }

  ghost predicate IdtyRules(log: seq<IRow>, b: IdtyBlock) {
    // checkIdentitiesPubkeyConflict, checkIdentitiesMatchJoin, checkPubkeyUnicity
    && NoDuplicate(b.identities)
    && (forall p | p in b.identities :: MRow(Create, p, false) in LocalMRows(b))
    && NoDuplicate(b.joiners + b.actives + b.leavers + b.excluded)
    // BR_G21 and BR_G74, BR_G26 and BR_G78, BR_G33 and BR_G85
    && (forall p | p in b.identities :: !Has(log, p))
    && (forall m | m in LocalMRows(b) && m.joinsBack :: Member(log, m.pub) != Some(true))
    && (forall p | p in b.excluded :: Member(log, p) == Some(true))
  }

  // ---- What the rules give ----

  ghost predicate OneRowPerPub(rows: seq<IRow>) {
    forall i, j | 0 <= i < j < |rows| && rows[i].member.Some? && rows[j].member.Some? :: rows[i].pub != rows[j].pub
  }

  ghost function PubsWith(rows: seq<IRow>, value: bool): set<string> {
    set i | 0 <= i < |rows| && rows[i].member == Some(value) :: rows[i].pub
  }

  ghost function ToSet(pubs: seq<string>): set<string> {
    set p | p in pubs
  }

  lemma {:induction false} NewcomerRowsMean(b: IdtyBlock, n: nat)
    requires n <= |b.identities|
    ensures |NewcomerRows(b, n)| == n
    ensures forall i | 0 <= i < n :: NewcomerRows(b, n)[i] == NewcomerRow(b, b.identities[i])
  {
    if n > 0 {
      NewcomerRowsMean(b, n - 1);
    }
  }

  lemma {:induction false} ExcludedRowsMean(b: IdtyBlock, n: nat)
    requires n <= |b.excluded|
    ensures |ExcludedRows(b, n)| == n
    ensures forall i | 0 <= i < n :: ExcludedRows(b, n)[i] == ExcludedRow(b, b.excluded[i])
  {
    if n > 0 {
      ExcludedRowsMean(b, n - 1);
    }
  }

  ghost predicate EntersBy(b: IdtyBlock, n: nat, r: IRow)
    requires n <= |b.joiners|
  {
    || (r.pub in b.identities && r == NewcomerRow(b, r.pub))
    || (r.pub in b.joiners[..n] && r.pub !in b.identities && r == JoinBackRow(b, r.pub)
        && MRow(Update, r.pub, true) in AfterJoiners(b, n).1)
  }

  lemma AfterJoinersStep(b: IdtyBlock, n: nat)
    requires 0 < n <= |b.joiners|
    ensures var before, pub := AfterJoiners(b, n - 1), b.joiners[n - 1];
            AfterJoiners(b, n) ==
            if Has(before.0, pub) then (before.0, before.1 + [MRow(Create, pub, false)])
            else (before.0 + [JoinBackRow(b, pub)], before.1 + [MRow(Update, pub, true)])
  {}

  /** Each key has at most one row after the joiners. */
  lemma {:induction false} JoinersHaveOneRow(b: IdtyBlock, n: nat)
    requires n <= |b.joiners| && NoDuplicate(b.identities)
    ensures OneRowPerPub(AfterJoiners(b, n).0)
  {
    if n == 0 {
      NewcomerRowsMean(b, |b.identities|);
    } else {
      JoinersHaveOneRow(b, n - 1);
      AfterJoinersStep(b, n);
      var before := AfterJoiners(b, n - 1).0;
      assert forall i | 0 <= i < |before| :: before[i] in before;
    }
  }

  lemma {:induction false} JoinersAreListed(b: IdtyBlock, n: nat, p: string)
    requires n <= |b.joiners| && (p in b.identities || p in b.joiners[..n])
    ensures Has(AfterJoiners(b, n).0, p)
  {
    var rows := AfterJoiners(b, n).0;
    if n == 0 {
      NewcomerRowsMean(b, |b.identities|);
      var i :| 0 <= i < |b.identities| && b.identities[i] == p;
      assert rows[i] in rows && rows[i].pub == p;
    } else {
      AfterJoinersStep(b, n);
      var before, pub := AfterJoiners(b, n - 1).0, b.joiners[n - 1];
      assert b.joiners[..n] == b.joiners[..n - 1] + [pub];
      if p in b.identities || p in b.joiners[..n - 1] {
        JoinersAreListed(b, n - 1, p);
        var r :| r in before && r.pub == p;
        assert r in rows;
      } else if !Has(before, pub) {
        assert rows[|before|] in rows && rows[|before|].pub == pub;
      }
    }
  }

  /** The rows written for identities and joiners let their keys enter. */
  lemma {:induction false} JoinersEnter(b: IdtyBlock, n: nat, r: IRow)
    requires n <= |b.joiners| && r in AfterJoiners(b, n).0
    ensures EntersBy(b, n, r)
  {
    if n == 0 {
      NewcomerRowsMean(b, |b.identities|);
    } else {
      AfterJoinersStep(b, n);
      var before, pub := AfterJoiners(b, n - 1).0, b.joiners[n - 1];
      assert b.joiners[..n] == b.joiners[..n - 1] + [pub];
      if r in before {
        JoinersEnter(b, n - 1, r);
      } else if pub in b.identities {
        JoinersAreListed(b, n - 1, pub);
      }
    }
  }

  lemma {:induction false} JoinedAreJoiners(b: IdtyBlock, n: nat, m: MRow)
    requires n <= |b.joiners| && m in AfterJoiners(b, n).1
    ensures m.pub in b.joiners[..n]
  {
    AfterJoinersStep(b, n);
    assert b.joiners[..n] == b.joiners[..n - 1] + [b.joiners[n - 1]];
    if m in AfterJoiners(b, n - 1).1 {
      JoinedAreJoiners(b, n - 1, m);
    }
  }
}
