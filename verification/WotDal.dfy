/** The identity stores as `saveBlockData` and `revertBlock` update them in place. */
module WotDal {
  import opened Sources
  import opened Identities
  import opened Membership
  import opened Wot

  method RemoveDated<T>(log: seq<Dated<T>>, number: nat) returns (kept: seq<Dated<T>>)
    ensures kept == Kept(log, number)
  {
    kept := [];
    for i := 0 to |log|
      invariant kept == Kept(log[..i], number)
    {
      assert log[..i + 1][..i] == log[..i];
      if log[i].writtenOn != number {
        kept := kept + [log[i]];
      }
    }
    assert log[..|log|] == log;
  }

  lemma MembershipsAreSaved(before: seq<Dated<MRow>>, b: IdtyBlock, memberships: seq<MRow>)
    requires LocalMRows(b) <= memberships
    ensures MembershipsSaved(before, b, before + Stamped(memberships, b.number))
  {
    assert memberships == LocalMRows(b) + memberships[|LocalMRows(b)|..];
  }

  /** The keys that the rows move have nodes that stay when the created ones are popped. */
  ghost predicate MovedAreKnown(ids: map<string, nat>, count: nat, rows: seq<IRow>) {
    forall p | p in Moves(rows, true) + Moves(rows, false) :: p in ids && ids[p] + |Creations(rows)| < count
  }

  class Dal {
    var iindex: seq<IRow>
    var mindex: seq<Dated<MRow>>
    var cindex: seq<Dated<CRow>>
    var nodes: seq<bool>
    var ids: map<string, nat>
    var links: set<(nat, nat)>
    var flags: map<string, bool>

    ghost function State(): Web
      reads this
    {
      Web(iindex, mindex, cindex, nodes, ids, links, flags)
    }

    constructor ()
      ensures State() == Web([], [], [], [], map[], {}, map[])
    {
      iindex, mindex, cindex := [], [], [];
      nodes, ids, links, flags := [], map[], {}, map[];
    }

    /** `createNewcomers`: a new node for each created identity. */
    method CreateNewcomers(rows: seq<IRow>)
      modifies this`nodes, this`ids
      ensures nodes == WithNodes(old(nodes), Creations(rows))
      ensures ids == WithIds(old(ids), Creations(rows), |old(nodes)|)
    {
      for i := 0 to |rows|
        invariant nodes == WithNodes(old(nodes), Creations(rows[..i]))
        invariant ids == WithIds(old(ids), Creations(rows[..i]), |old(nodes)|)
      {
        assert rows[..i + 1][..i] == rows[..i];
        if rows[i].op == Create {
          ghost var before := Creations(rows[..i]);
          assert (before + [rows[i].pub])[..|before|] == before;
          ids := ids[rows[i].pub := |nodes|];
          nodes := nodes + [true];
        }
      }
      assert rows[..|rows|] == rows;
    }

    /** `createMember`, for every local row: an entry that exists is flagged as member again. */
    method CreateMembers(rows: seq<IRow>)
      modifies this`flags
      ensures flags == Flagged(old(flags), Pubs(rows), true)
    {
      for i := 0 to |rows|
        invariant flags == Flagged(old(flags), Pubs(rows)[..i], true)
      {
        assert Pubs(rows)[..i + 1][..i] == Pubs(rows)[..i];
        flags := flags[rows[i].pub := true];
      }
      assert Pubs(rows)[..|rows|] == Pubs(rows);
    }

    /** A loop of `updateMembers` or `undoMembersUpdate`: enables or disables, and flags. */
    method SetMembers(pubs: seq<string>, value: bool)
      requires forall p | p in pubs :: p in ids && ids[p] < |nodes|
      modifies this`nodes, this`flags
      ensures nodes == Enabled(old(nodes), ids, pubs, value) && |nodes| == |old(nodes)|
      ensures flags == Flagged(old(flags), pubs, value)
    {
      for i := 0 to |pubs|
        invariant nodes == Enabled(old(nodes), ids, pubs[..i], value) && |nodes| == |old(nodes)|
        invariant flags == Flagged(old(flags), pubs[..i], value)
      {
        assert pubs[..i + 1][..i] == pubs[..i];
        nodes := nodes[ids[pubs[i]] := value];
        flags := flags[pubs[i] := value];
      }
      assert pubs[..|pubs|] == pubs;
    }

    /** `updateWotbLinks`, or the loop of `revertBlock` that undoes it. */
    method UpdateLinks(rows: seq<CRow>, undo: bool)
      requires AllKnown(ids, rows)
      modifies this`links
      ensures links == Linked(old(links), ids, rows, undo)
    {
      for i := 0 to |rows|
        invariant links == Linked(old(links), ids, rows[..i], undo)
      {
        assert rows[..i + 1][..i] == rows[..i];
        var link := (ids[rows[i].issuer], ids[rows[i].receiver]);
        if (rows[i].op == Create) != undo {
          links := links + {link};
        } else {
          links := links - {link};
        }
      }
      assert rows[..|rows|] == rows;
    }

    /** The identity part of `saveBlockData`. Looking up the node of an unknown key throws. */
    method SaveIdentities(b: IdtyBlock, rows: seq<IRow>, marks: seq<IRow>, memberships: seq<MRow>, certs: seq<CRow>)
      requires rows == LocalIRows(b) && LocalMRows(b) <= memberships
      requires Marks(marks) && forall i | 0 <= i < |marks| :: marks[i].op == Update && marks[i].writtenOn == b.number
      requires var all := WithIds(ids, Creations(rows), |nodes|);
               && (forall p | p in b.joiners + b.excluded :: p in all && all[p] < |nodes| + |Creations(rows)|)
               && AllKnown(all, certs)
      modifies this
      ensures Saved(old(State()), b, marks, certs, State())
      ensures iindex == old(iindex) + rows + marks
      ensures mindex ==
              old(mindex)
              + seq(|memberships|, i requires 0 <= i < |memberships| => Dated(memberships[i], b.number))
      ensures cindex ==
              old(cindex) + seq(|certs|, i requires 0 <= i < |certs| => Dated(certs[i], b.number))
    {
      CreateMembers(rows);
      CreateNewcomers(rows);
      iindex := iindex + rows + marks;
      mindex := mindex + Stamped(memberships, b.number);
      cindex := cindex + Stamped(certs, b.number);
      MembershipsAreSaved(old(mindex), b, memberships);
      assert forall p | p in b.joiners :: p in b.joiners + b.excluded;
      assert forall p | p in b.excluded :: p in b.joiners + b.excluded;
      SetMembers(b.joiners, true);
      SetMembers(b.excluded, false);
      UpdateLinks(certs, false);
    }

    method RowsOfBlock(number: nat) returns (rows: seq<IRow>)
      ensures rows == OfBlock(iindex, number)
    {
      rows := [];
      for i := 0 to |iindex|
        invariant rows == OfBlock(iindex[..i], number)
      {
        assert iindex[..i + 1][..i] == iindex[..i];
        if iindex[i].writtenOn == number {
          rows := rows + [iindex[i]];
        }
      }
      assert iindex[..|iindex|] == iindex;
    }

    method CertsOfBlock(number: nat) returns (certs: seq<CRow>)
      ensures certs == WrittenBy(cindex, number)
    {
      certs := [];
      for i := 0 to |cindex|
        invariant certs == WrittenBy(cindex[..i], number)
      {
        assert cindex[..i + 1][..i] == cindex[..i];
        if cindex[i].writtenOn == number {
          certs := certs + [cindex[i].row];
        }
      }
      assert cindex[..|cindex|] == cindex;
    }

    method RemoveBlock(number: nat)
      modifies this`iindex, this`mindex, this`cindex
      ensures iindex == WithoutBlock(old(iindex), number)
      ensures mindex == Kept(old(mindex), number) && cindex == Kept(old(cindex), number)
    {
      mindex := RemoveDated(mindex, number);
      var kept: seq<IRow> := [];
      for i := 0 to |iindex|
        invariant iindex == old(iindex) && cindex == old(cindex) && mindex == Kept(old(mindex), number)
        invariant kept == WithoutBlock(iindex[..i], number)
      {
        assert iindex[..i + 1][..i] == iindex[..i];
        if iindex[i].writtenOn != number {
          kept := kept + [iindex[i]];
        }
      }
      assert iindex[..|iindex|] == iindex;
      iindex := kept;
      cindex := RemoveDated(cindex, number);
    }

    /** The second loop of `undoMembersUpdate`: whichever the newcomer, the last node is popped. */
    method RemoveNewcomers(newcomers: seq<string>)
      modifies this`nodes, this`flags
      ensures nodes == Popped(old(nodes), |newcomers|)
      ensures flags == old(flags) - ToSet(newcomers)
    {
      for i := 0 to |newcomers|
        invariant nodes == Popped(old(nodes), i)
        invariant flags == old(flags) - ToSet(newcomers[..i])
      {
        if |nodes| > 0 {
          nodes := nodes[..|nodes| - 1];
        }
        assert newcomers[..i + 1] == newcomers[..i] + [newcomers[i]];
        flags := flags - {newcomers[i]};
      }
      assert newcomers[..|newcomers|] == newcomers;
    }

    /** `undoMembersUpdate`: the join backs, then the newcomers, then the excluded. */
    method UndoMembersUpdate(rows: seq<IRow>)
      requires MovedAreKnown(ids, |nodes|, rows)
      modifies this`nodes, this`flags
      ensures MembersUndone(old(nodes), ids, old(flags), rows, nodes, flags)
    {
      var back, gone, newcomers := Moves(rows, true), Moves(rows, false), Creations(rows);
      assert forall p | p in back :: p in back + gone;
      assert forall p | p in gone :: p in back + gone;
      SetMembers(back, false);
      RemoveNewcomers(newcomers);
      SetMembers(gone, true);
    }

    method RemoveNodeNumbers(rows: seq<IRow>)
      modifies this`ids
      ensures ids == old(ids) - ToSet(Creations(rows))
    {
      var created := set p | p in Creations(rows);
      ids := ids - created;
    }

    /** Links, then nodes and flags; the node numbers are fields of the creation rows, to be removed. */
    method RevertWot(certs: seq<CRow>, rows: seq<IRow>)
      requires AllKnown(ids, certs) && MovedAreKnown(ids, |nodes|, rows)
      modifies this`links, this`nodes, this`flags, this`ids
      ensures links == Linked(old(links), old(ids), certs, true)
      ensures MembersUndone(old(nodes), old(ids), old(flags), rows, nodes, flags)
      ensures ids == old(ids) - ToSet(Creations(rows))
    {
      UpdateLinks(certs, true);
      UndoMembersUpdate(rows);
      RemoveNodeNumbers(rows);
    }

    /** The identity part of `revertBlock`: links, then nodes and flags, then rows. */
    method RevertIdentities(number: nat)
      requires AllKnown(ids, WrittenBy(cindex, number))
      requires MovedAreKnown(ids, |nodes|, OfBlock(iindex, number))
      modifies this
      ensures Reverted(old(State()), number, State())
    {
      var certs := CertsOfBlock(number);
      var rows := RowsOfBlock(number);
      RevertWot(certs, rows);
      RemoveBlock(number);
    }
  }
}
