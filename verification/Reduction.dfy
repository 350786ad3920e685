/** How the rows of an index are read back: `reduce` folds the event log of a key into one record,
    and `reduceForDBTrimming` compacts the old part of the log. */
module Reduction {
  import opened Outcomes

  // A field missing from the map is undefined, a field mapped to `None` is null. The stamp is
  // undefined only in the reduction of no record.
  datatype Record<V> = Record(writtenOn: Option<int>, fields: map<string, Option<V>>)

  function Empty<V>(): Record<V> {
    Record(None, map[])
  }

  /** One step of `reduce`: a value overrides, a null only replaces undefined. */
  function MergeField<V>(a: Record<V>, b: Record<V>, k: string): Option<V>
    requires k in a.fields || k in b.fields
  {
    if k in b.fields && b.fields[k].Some? then b.fields[k]
    else if k in a.fields then a.fields[k]
    else None
  }

  function Merge<V>(a: Record<V>, b: Record<V>): Record<V> {
    Record(if b.writtenOn.Some? then b.writtenOn else a.writtenOn,
           map k | k in a.fields.Keys + b.fields.Keys :: MergeField(a, b, k))
  }

  function Reduced<V>(records: seq<Record<V>>): Record<V> {
    if records == [] then Empty()
    else Merge(Reduced(records[..|records| - 1]), records[|records| - 1])
  }

  /** `reduce` */
  method Reduce<V>(records: seq<Record<V>>) returns (obj: Record<V>)
    ensures obj == Reduced(records)
  {
    obj := Empty();
    for i := 0 to |records|
      invariant obj == Reduced(records[..i])
    {
      assert records[..i + 1][..i] == records[..i];
      var record := records[i];
      ghost var before := obj;
      if record.writtenOn.Some? {
        obj := obj.(writtenOn := record.writtenOn);
      }
      var keys := record.fields.Keys;
      while keys != {}
        invariant keys <= record.fields.Keys
        invariant obj.writtenOn == Merge(before, record).writtenOn
        invariant obj.fields.Keys == before.fields.Keys + (record.fields.Keys - keys)
        invariant forall k | k in obj.fields ::
                    obj.fields[k] == if k in keys then before.fields[k] else MergeField(before, record, k)
      {
        var k :| k in keys;
        if record.fields[k].Some? {
          obj := obj.(fields := obj.fields[k := record.fields[k]]);
        } else if k !in obj.fields {
          obj := obj.(fields := obj.fields[k := None]);
        }
        keys := keys - {k};
      }
      assert obj.fields == Merge(before, record).fields;
    }
    assert records[..|records|] == records;
  }

  lemma MergeIsAssociative<V>(a: Record<V>, b: Record<V>, c: Record<V>)
    ensures Merge(Merge(a, b), c) == Merge(a, Merge(b, c))
  {
    assert Merge(Merge(a, b), c).fields == Merge(a, Merge(b, c)).fields;
  }

  lemma EmptyIsNeutral<V>(a: Record<V>)
    ensures Merge(a, Empty()) == a == Merge(Empty(), a)
  {
    assert Merge(a, Empty()).fields == a.fields == Merge(Empty(), a).fields;
  }

  /** Reducing is a fold: a log may be reduced part by part. */
  lemma {:induction false} ReducedByParts<V>(xs: seq<Record<V>>, ys: seq<Record<V>>)
    ensures Reduced(xs + ys) == Merge(Reduced(xs), Reduced(ys))
  {
    if ys == [] {
      assert xs + ys == xs;
      EmptyIsNeutral(Reduced(xs));
    } else {
      var n := |ys| - 1;
      ReducedByParts(xs, ys[..n]);
      assert (xs + ys)[..|xs + ys| - 1] == xs + ys[..n];
      MergeIsAssociative(Reduced(xs), Reduced(ys[..n]), ys[n]);
    }
  }

  ghost predicate Carries<V>(r: Record<V>, k: string) {
    k in r.fields && r.fields[k].Some?
  }

  lemma {:induction false} ReducedFieldIsPresent<V>(records: seq<Record<V>>, k: string)
    ensures k in Reduced(records).fields <==> exists r | r in records :: k in r.fields
  {
    if records != [] {
      var n := |records| - 1;
      ReducedFieldIsPresent(records[..n], k);
      assert records == records[..n] + [records[n]];
    }
  }

  lemma {:induction false} ReducedFieldIsCarried<V>(records: seq<Record<V>>, k: string)
    ensures Carries(Reduced(records), k) <==> exists r | r in records :: Carries(r, k)
  {
    if records != [] {
      var n := |records| - 1;
      ReducedFieldIsCarried(records[..n], k);
      assert records == records[..n] + [records[n]];
      assert Carries(Reduced(records), k) <==> Carries(Reduced(records[..n]), k) || Carries(records[n], k);
      if r :| r in records[..n] && Carries(r, k) {
        assert r in records;
      }
      assert records[n] in records;
    }
  }

  /** The last record that gives a value to the field. */
  ghost predicate LastCarrier<V>(records: seq<Record<V>>, k: string, i: nat)
    requires i < |records|
  {
    Carries(records[i], k) && forall j | i < j < |records| :: !Carries(records[j], k)
  }

  /** What a reduced field holds: the last value given to it, null when it was only ever null, and
      nothing when no record has it. */
  lemma {:induction false} ReducedFieldIsLastValue<V>(records: seq<Record<V>>, k: string, i: nat)
    requires i < |records| && LastCarrier(records, k, i)
    ensures k in Reduced(records).fields && Reduced(records).fields[k] == records[i].fields[k]
  {
    var n := |records| - 1;
    if i < n {
      var front := records[..n];
      assert front[i] == records[i] && forall j | i < j < n :: front[j] == records[j];
      ReducedFieldIsLastValue(front, k, i);
      assert !Carries(records[n], k);
    }
  }

  /** The stamp of a reduction is the last one that a record gives. */
  lemma {:induction false} ReducedStampIsLast<V>(records: seq<Record<V>>, i: nat)
    requires i < |records| && records[i].writtenOn.Some?
    requires forall j | i < j < |records| :: records[j].writtenOn.None?
    ensures Reduced(records).writtenOn == records[i].writtenOn
  {
    var n := |records| - 1;
    if i < n {
      assert forall j | i < j < n :: records[..n][j] == records[j];
      ReducedStampIsLast(records[..n], i);
    }
  }

  function Below<V>(records: seq<Record<V>>, number: int): seq<Record<V>> {
    if records == [] then []
    else
      var front, r := Below(records[..|records| - 1], number), records[|records| - 1];
      if r.writtenOn.Some? && r.writtenOn.value < number then front + [r] else front
  }

  function NotBelow<V>(records: seq<Record<V>>, number: int): seq<Record<V>> {
    if records == [] then []
    else
      var front, r := NotBelow(records[..|records| - 1], number), records[|records| - 1];
      if r.writtenOn.Some? && r.writtenOn.value >= number then front + [r] else front
  }

  /** `reduceForDBTrimming`. A record without stamp compares as neither below nor above. */
  function Trimmed<V>(records: seq<Record<V>>, belowNumber: int): Result<seq<Record<V>>, string> {
    if records == [] then Failure("INVALID_TRIMMABLE_DATA")
    else Success([Reduced(Below(records, belowNumber))] + NotBelow(records, belowNumber))
  }

  ghost predicate Before<V>(a: Record<V>, b: Record<V>) {
    a.writtenOn.Some? && b.writtenOn.Some? ==> a.writtenOn.value <= b.writtenOn.value
  }

  /** A log as the index DAOs keep it: in the order of writing; the only record without stamp is
      the empty one that a first trimming leaves. */
  ghost predicate Ordered<V>(records: seq<Record<V>>) {
    && (forall i, j | 0 <= i < j < |records| :: Before(records[i], records[j]))
    && (forall i | 0 <= i < |records| :: records[i].writtenOn.None? ==> records[i] == Empty())
  }

  lemma {:induction false} AllBelow<V>(records: seq<Record<V>>, number: int)
    requires forall r | r in records :: r.writtenOn.Some? ==> r.writtenOn.value < number
    ensures NotBelow(records, number) == []
  {
    if records != [] {
      AllBelow(records[..|records| - 1], number);
    }
  }

  lemma {:induction false} SplitKeepsReduction<V>(records: seq<Record<V>>, number: int)
    requires Ordered(records)
    ensures Merge(Reduced(Below(records, number)), Reduced(NotBelow(records, number))) == Reduced(records)
  {
    if records == [] {
      EmptyIsNeutral<V>(Empty());
    } else {
      var n := |records| - 1;
      var front, r := records[..n], records[n];
      SplitKeepsReduction(front, number);
      var below, above := Below(front, number), NotBelow(front, number);
      if r.writtenOn.None? {
        EmptyIsNeutral(Reduced(front));
      } else if r.writtenOn.value >= number {
        assert (above + [r])[..|above|] == above;
        MergeIsAssociative(Reduced(below), Reduced(above), r);
      } else {
        forall x | x in front && x.writtenOn.Some? ensures x.writtenOn.value < number {
          var i :| 0 <= i < n && front[i] == x;
          assert Before(records[i], records[n]);
        }
        AllBelow(front, number);
        EmptyIsNeutral(Reduced(below));
        EmptyIsNeutral(Reduced(below + [r]));
        assert (below + [r])[..|below|] == below;
      }
    }
  }

  /** Trimming an ordered log does not change what it reduces to. */
  lemma TrimmingPreservesMeaning<V>(records: seq<Record<V>>, belowNumber: int)
    requires Ordered(records) && records != []
    ensures Trimmed(records, belowNumber).Success?
    ensures Reduced(Trimmed(records, belowNumber).value) == Reduced(records)
  {
    var head := Reduced(Below(records, belowNumber));
    ReducedByParts([head], NotBelow(records, belowNumber));
    EmptyIsNeutral(head);
    assert Reduced([head]) == Merge(Reduced([]), head);
    SplitKeepsReduction(records, belowNumber);
  }

  // ---- Where a log is cut ----

  lemma {:induction false} FiltersOfParts<V>(xs: seq<Record<V>>, ys: seq<Record<V>>, number: int)
    ensures Below(xs + ys, number) == Below(xs, number) + Below(ys, number)
    ensures NotBelow(xs + ys, number) == NotBelow(xs, number) + NotBelow(ys, number)
  {
    if ys == [] {
      assert xs + ys == xs;
    } else {
      FiltersOfParts(xs, ys[..|ys| - 1], number);
      assert (xs + ys)[..|xs + ys| - 1] == xs + ys[..|ys| - 1];
    }
  }

  lemma {:induction false} AllNotBelow<V>(records: seq<Record<V>>, number: int)
    requires forall r | r in records :: r.writtenOn.Some? && r.writtenOn.value >= number
    ensures Below(records, number) == [] && NotBelow(records, number) == records
  {
    if records != [] {
      AllNotBelow(records[..|records| - 1], number);
    }
  }

  lemma {:induction false} AllAreBelow<V>(records: seq<Record<V>>, number: int)
    requires forall r | r in records :: r.writtenOn.Some? && r.writtenOn.value < number
    ensures Below(records, number) == records && NotBelow(records, number) == []
  {
    if records != [] {
      AllAreBelow(records[..|records| - 1], number);
    }
  }

  /** A log that is written before `number` and then from `number` on has its first part reduced to
      one record and keeps the other. */
  lemma TrimmedMeans<V>(before: seq<Record<V>>, since: seq<Record<V>>, number: int)
    requires before + since != []
    requires forall r | r in before :: r.writtenOn.Some? && r.writtenOn.value < number
    requires forall r | r in since :: r.writtenOn.Some? && r.writtenOn.value >= number
    ensures Trimmed(before + since, number) == Success([Reduced(before)] + since)
  {
    FiltersOfParts(before, since, number);
    AllAreBelow(before, number);
    AllNotBelow(since, number);
    assert Below(before + since, number) == before && NotBelow(before + since, number) == since;
  }

  lemma {:induction false} LaterCutOfUpper<V>(records: seq<Record<V>>, n1: int, n2: int)
    requires n1 <= n2
    ensures NotBelow(NotBelow(records, n1), n2) == NotBelow(records, n2)
  {
    if records != [] {
      var front, r := records[..|records| - 1], records[|records| - 1];
      LaterCutOfUpper(front, n1, n2);
      if r.writtenOn.Some? && r.writtenOn.value >= n1 {
        assert (NotBelow(front, n1) + [r])[..|NotBelow(front, n1)|] == NotBelow(front, n1);
      }
    }
  }

  /** Cutting an ordered log at n2 keeps the part below an earlier n1 in front. */
  lemma {:induction false} LaterCutOfLower<V>(records: seq<Record<V>>, n1: int, n2: int)
    requires Ordered(records) && n1 <= n2
    ensures Below(records, n2) == Below(records, n1) + Below(NotBelow(records, n1), n2)
  {
    if records != [] {
      var n := |records| - 1;
      var front, r := records[..n], records[n];
      LaterCutOfLower(front, n1, n2);
      if r.writtenOn.Some? && r.writtenOn.value >= n1 {
        assert (NotBelow(front, n1) + [r])[..|NotBelow(front, n1)|] == NotBelow(front, n1);
      } else if r.writtenOn.Some? {
        forall x | x in front && x.writtenOn.Some? ensures x.writtenOn.value < n1 {
          var i :| 0 <= i < n && front[i] == x;
          assert Before(records[i], records[n]);
        }
        AllBelow(front, n1);
      }
    }
  }

  lemma {:induction false} StampOfBelow<V>(records: seq<Record<V>>, number: int)
    ensures Below(records, number) == [] ==> Reduced(Below(records, number)) == Empty()
    ensures Below(records, number) != [] ==>
              var w := Reduced(Below(records, number)).writtenOn; w.Some? && w.value < number
  {
    if records != [] {
      StampOfBelow(records[..|records| - 1], number);
    }
  }

  /** Trimming at n1 and later at n2 >= n1 leaves what trimming once at n2 leaves. */
  lemma TrimmingTwice<V>(records: seq<Record<V>>, n1: int, n2: int)
    requires Ordered(records) && records != [] && n1 <= n2
    ensures Trimmed(records, n1).Success?
    ensures Trimmed(Trimmed(records, n1).value, n2) == Trimmed(records, n2)
  {
    var below, above := Below(records, n1), NotBelow(records, n1);
    var head := Reduced(below);
    FiltersOfParts([head], above, n2);
    LaterCutOfUpper(records, n1, n2);
    LaterCutOfLower(records, n1, n2);
    StampOfBelow(records, n1);
    assert [head][..|[head]| - 1] == [];
    assert Below<V>([], n2) == NotBelow<V>([], n2) == [];
    if below == [] {
      assert Below([head], n2) == [] && NotBelow([head], n2) == [];
      assert Below([head] + above, n2) == Below(above, n2) == Below(records, n2);
    } else {
      assert Below([head], n2) == [head] && NotBelow([head], n2) == [];
      ReducedByParts([head], Below(above, n2));
      ReducedByParts(below, Below(above, n2));
      EmptyIsNeutral(head);
      assert Reduced([head]) == head;
      assert Reduced(Below([head] + above, n2)) == Reduced(Below(records, n2));
    }
    assert NotBelow([head] + above, n2) == NotBelow(records, n2);
  }

  // ---- Why the order is needed ----

  /** The cut separates the stamps: no record written from `number` on precedes one written before. */
  ghost predicate Separated(stamps: seq<int>, number: int) {
    forall i, j | 0 <= i < j < |stamps| :: stamps[j] < number ==> stamps[i] < number
  }

  ghost predicate Stamped<V>(records: seq<Record<V>>, stamps: seq<int>) {
    |records| == |stamps| && forall i | 0 <= i < |stamps| :: records[i].writtenOn == Some(stamps[i])
  }

  ghost predicate TrimKeeps(records: seq<Record<int>>, number: int) {
    Trimmed(records, number).Success? ==> Reduced(Trimmed(records, number).value) == Reduced(records)
  }

  lemma {:induction false} SeparatedSplit<V>(records: seq<Record<V>>, stamps: seq<int>, number: int)
    requires Stamped(records, stamps) && Separated(stamps, number)
    ensures Below(records, number) + NotBelow(records, number) == records
  {
    if records != [] {
      var n := |records| - 1;
      SeparatedSplit(records[..n], stamps[..n], number);
      if stamps[n] < number {
        forall x | x in records[..n] && x.writtenOn.Some? ensures x.writtenOn.value < number {
          var i :| 0 <= i < n && records[i] == x;
          assert stamps[i] < number;
        }
        AllBelow(records[..n], number);
      }
      assert records == records[..n] + [records[n]];
    }
  }

  /** Records with these stamps where only the records i and j have a field: i says 1, j says 2. */
  function Clash(stamps: seq<int>, i: nat, j: nat): seq<Record<int>> {
    seq(|stamps|, k requires 0 <= k < |stamps| =>
      Record(Some(stamps[k]), if k == i then map["f" := Some(1)] else if k == j then map["f" := Some(2)] else map[]))
  }

  lemma {:induction false} OnlyValue(records: seq<Record<int>>, v: int)
    requires forall r | r in records && "f" in r.fields :: r.fields["f"] == Some(v)
    ensures Carries(Reduced(records), "f") ==> Reduced(records).fields["f"] == Some(v)
    ensures (exists r | r in records :: Carries(r, "f")) ==> Carries(Reduced(records), "f")
  {
    if records != [] {
      var n := |records| - 1;
      assert records == records[..n] + [records[n]];
      OnlyValue(records[..n], v);
    }
  }

  lemma {:induction false} NotBelowMembers<V>(records: seq<Record<V>>, number: int, r: Record<V>)
    ensures r in NotBelow(records, number) <==>
            r in records && r.writtenOn.Some? && r.writtenOn.value >= number
  {
    if records != [] {
      var n := |records| - 1;
      assert records == records[..n] + [records[n]];
      NotBelowMembers(records[..n], number, r);
    }
  }

  /** Trimming at `number` is harmless for every log with these stamps exactly when the cut
      separates the stamps. */
  lemma TrimmingNeedsSeparation(stamps: seq<int>, number: int)
    ensures Separated(stamps, number) <==>
            forall records: seq<Record<int>> | Stamped(records, stamps) :: TrimKeeps(records, number)
  {
    if Separated(stamps, number) {
      forall records: seq<Record<int>> | Stamped(records, stamps) ensures TrimKeeps(records, number) {
        SeparatedSplit(records, stamps, number);
        var head, above := Reduced(Below(records, number)), NotBelow(records, number);
        ReducedByParts([head], above);
        ReducedByParts(Below(records, number), above);
        EmptyIsNeutral(head);
        assert Reduced([head]) == head;
      }
    } else {
      var i, j :| 0 <= i < j < |stamps| && stamps[j] < number <= stamps[i];
      ClashIsLost(stamps, i, j, number);
    }
  }

  lemma ClashIsLost(stamps: seq<int>, i: nat, j: nat, number: int)
    requires i < j < |stamps| && stamps[j] < number <= stamps[i]
    ensures Stamped(Clash(stamps, i, j), stamps) && !TrimKeeps(Clash(stamps, i, j), number)
  {
    var records := Clash(stamps, i, j);
    var head, above := Reduced(Below(records, number)), NotBelow(records, number);
    ClashLastValue(stamps, i, j);
    ClashUpperValue(stamps, i, j, number);
    ReducedByParts([head], above);
  }

  lemma ClashLastValue(stamps: seq<int>, i: nat, j: nat)
    requires i < j < |stamps|
    ensures Carries(Reduced(Clash(stamps, i, j)), "f") && Reduced(Clash(stamps, i, j)).fields["f"] == Some(2)
  {
    var records := Clash(stamps, i, j);
    assert LastCarrier(records, "f", j);
    ReducedFieldIsLastValue(records, "f", j);
  }

  lemma ClashUpperValue(stamps: seq<int>, i: nat, j: nat, number: int)
    requires i < j < |stamps| && stamps[j] < number <= stamps[i]
    ensures var above := Reduced(NotBelow(Clash(stamps, i, j), number));
            Carries(above, "f") && above.fields["f"] == Some(1)
  {
    var records := Clash(stamps, i, j);
    var above := NotBelow(records, number);
    NotBelowMembers(records, number, records[i]);
    assert records[i] in above && Carries(records[i], "f");
    forall r | r in above && "f" in r.fields ensures r.fields["f"] == Some(1) {
      NotBelowMembers(records, number, r);
      var k :| 0 <= k < |records| && records[k] == r;
      assert stamps[k] >= number;
    }
    OnlyValue(above, 1);
  }
}
