/** How far the dry run of scripts/backfill-project-names.ts foretells pass C. */
module BackfillDryRun {
  import opened Wrappers
  import opened BackfillPasses
  import opened BackfillRun
  import opened BackfillRefinement

  /** Rows, among the first `n`, that hold `value` and were re-derived. */
  function Rederived(rows: seq<Row>, n: nat, derived: set<string>, value: string): nat
    requires n <= |rows|
  {
    if n == 0 then 0
    else Rederived(rows, n - 1, derived, value)
         + if Is(rows[n - 1].project, value) && rows[n - 1].id in derived then 1 else 0
  }

  lemma {:induction false} CountSplits(rows: seq<Row>, n: nat, derived: set<string>, value: string)
    requires n <= |rows|
    ensures Count(rows, n, value) == Rederived(rows, n, derived, value) + Unclaimed(rows, n, derived, value)
  {
    if n > 0 {
      CountSplits(rows, n - 1, derived, value);
    }
  }

  /** No visited row keeps an inherited project. */
  ghost predicate NoneInherited(rows: seq<Row>, visits: seq<Payload>) {
    forall k :: 0 <= k < |visits| ==>
      var i := Find(rows, |rows|, visits[k].id); i >= 0 ==> !Inherited(visits[k].reading, rows[i].source)
  }

  lemma {:induction false} RederivedNone(rows: seq<Row>, n: nat, value: string)
    requires n <= |rows|
    ensures Rederived(rows, n, {}, value) == 0
  {
    if n > 0 {
      RederivedNone(rows, n - 1, value);
    }
  }

  /** One more derived id adds its own row, if that holds the value. */
  lemma {:induction false} RederivedAdds(rows: seq<Row>, n: nat, derived: set<string>, value: string, i: nat)
    requires n <= |rows| && i < |rows| && DistinctIds(rows) && rows[i].id !in derived
    ensures Rederived(rows, n, derived + {rows[i].id}, value)
         == Rederived(rows, n, derived, value) + if i < n && Is(rows[i].project, value) then 1 else 0
  {
    if n > 0 {
      RederivedAdds(rows, n - 1, derived, value, i);
      if n - 1 != i {
        assert rows[n - 1].id != rows[i].id;
      }
    }
  }

  /** `value` is the only project of the table that pass B turns into `postB`. */
  ghost predicate OnlyPreimage(rows: seq<Row>, repairs: seq<Repair>, value: string, postB: Option<string>) {
    forall i :: 0 <= i < |rows| && Looked(repairs, |repairs|, rows[i].project) == postB ==> Is(rows[i].project, value)
  }

  /** The rows claimed under a repaired value include those re-derived under each value it comes from. */
  lemma {:induction false} ClaimedCovers(
    rows: seq<Row>, repairs: seq<Repair>, visits: seq<Payload>, n: nat, value: string, postB: Option<string>)
    requires n <= |visits| && DistinctIds(rows) && DistinctPayloads(visits) && Joined(visits, rows)
    requires NoneInherited(rows, visits) && Looked(repairs, |repairs|, Some(value)) == postB
    ensures var claimed := ByValue(RowsLooked(rows, repairs), visits, n, postB);
            var derived := Rederived(rows, |rows|, DerivedIds(visits, n), value);
            derived <= claimed && (OnlyPreimage(rows, repairs, value, postB) ==> derived == claimed)
  {
    if n == 0 {
      RederivedNone(rows, |rows|, value);
    } else {
      ClaimedCovers(rows, repairs, visits, n - 1, value, postB);
      ClaimedStep(rows, repairs, visits, n - 1, visits[n - 1], value, postB);
    }
  }

  lemma ClaimedStep(
    rows: seq<Row>, repairs: seq<Repair>, visits: seq<Payload>, n: nat, p: Payload, value: string, postB: Option<string>)
    requires n < |visits| && visits[n] == p && DistinctIds(rows) && DistinctPayloads(visits) && Joined(visits, rows)
    requires NoneInherited(rows, visits) && Looked(repairs, |repairs|, Some(value)) == postB
    ensures var taken := RowsLooked(rows, repairs);
            var claims := ByValue(taken, visits, n + 1, postB) - ByValue(taken, visits, n, postB);
            var derives := Rederived(rows, |rows|, DerivedIds(visits, n + 1), value)
                           - Rederived(rows, |rows|, DerivedIds(visits, n), value);
            derives <= claims && (OnlyPreimage(rows, repairs, value, postB) ==> derives == claims)
  {
    var taken := RowsLooked(rows, repairs);
    var i := Find(rows, |rows|, p.id);
    assert Find(rows, |rows|, visits[n].id) >= 0;
    FindFinds(rows, |rows|, p.id);
    SameIds(rows, taken, |rows|, p.id);
    var before := DerivedIds(visits, n);
    if p.reading.Extracted? {
      DerivedIff(visits, n, p.id);
      VisitAt(visits, n, p.id, n);
      assert DerivedIds(visits, n + 1) == before + {rows[i].id};
      RederivedAdds(rows, |rows|, before, value, i);
      if Is(rows[i].project, value) {
        assert rows[i].project == Some(value);
      }
    } else {
      assert DerivedIds(visits, n + 1) == before;
    }
  }

  // Junk rows, counted by original value

  /** Over the first `n` values whose repaired form is junk, the rows that were not re-derived. */
  function FreeJunk(rows: seq<Row>, values: seq<string>, n: nat, repairs: seq<Repair>, derived: set<string>, m: nat): nat
    requires n <= |values| && m <= |rows|
  {
    if n == 0 then 0
    else FreeJunk(rows, values, n - 1, repairs, derived, m)
         + if IsJunk(Looked(repairs, |repairs|, Some(values[n - 1]))) then Unclaimed(rows, m, derived, values[n - 1]) else 0
  }

  /** Adding a row adds one to the sum exactly if it is free and its value, one of the first `n`, repairs to junk. */
  lemma {:induction false} FreeJunkRow(
    rows: seq<Row>, values: seq<string>, n: nat, repairs: seq<Repair>, derived: set<string>, m: nat)
    requires n <= |values| && m < |rows|
    requires forall i, j :: 0 <= i < j < |values| ==> values[i] != values[j]
    ensures FreeJunk(rows, values, n, repairs, derived, m + 1)
         == FreeJunk(rows, values, n, repairs, derived, m)
            + if rows[m].id !in derived && (exists k :: 0 <= k < n && Is(rows[m].project, values[k]))
                 && IsJunk(Looked(repairs, |repairs|, rows[m].project))
              then 1 else 0
  {
    if n > 0 {
      FreeJunkRow(rows, values, n - 1, repairs, derived, m);
      if Is(rows[m].project, values[n - 1]) {
        assert rows[m].project == Some(values[n - 1]);
        assert forall k :: 0 <= k < n - 1 ==> !Is(rows[m].project, values[k]);
      }
    }
  }

  lemma {:induction false} FreeJunkNone(rows: seq<Row>, values: seq<string>, n: nat, repairs: seq<Repair>, derived: set<string>)
    requires n <= |values|
    ensures FreeJunk(rows, values, n, repairs, derived, 0) == 0
  {
    if n > 0 {
      FreeJunkNone(rows, values, n - 1, repairs, derived);
    }
  }

  lemma LookedNone(repairs: seq<Repair>)
    ensures Looked(repairs, |repairs|, None) == None
  {
    LookedOther(repairs, |repairs|, None);
  }

  /** Counting junk by row and counting it by original value agree. */
  lemma {:induction false} JunkByValue(
    rows: seq<Row>, values: seq<string>, repairs: seq<Repair>, derived: set<string>, m: nat)
    requires IsDistinctList(rows, values) && m <= |rows|
    ensures JunkRows(RowsLooked(rows, repairs), m, derived, |JUNK|) == FreeJunk(rows, values, |values|, repairs, derived, m)
  {
    FreeJunkNone(rows, values, |values|, repairs, derived);
    if m > 0 {
      JunkByValue(rows, values, repairs, derived, m - 1);
      FreeJunkRow(rows, values, |values|, repairs, derived, m - 1);
      match rows[m - 1].project {
        case Some(v) =>
          var k :| 0 <= k < |values| && values[k] == v;
          assert Is(rows[m - 1].project, values[k]);
        case None =>
          LookedNone(repairs);
      }
    }
  }

  /** Pass A leaves the rows it did not re-derive as pass B left them. */
  lemma {:induction false} JunkBeforePassA(live: seq<Row>, visits: seq<Payload>, m: nat)
    requires DistinctPayloads(visits) && m <= |live|
    ensures JunkRows(RowsRederived(live, visits, |visits|), m, DerivedIds(visits, |visits|), |JUNK|)
         == JunkRows(live, m, DerivedIds(visits, |visits|), |JUNK|)
  {
    if m > 0 {
      JunkBeforePassA(live, visits, m - 1);
      RederivedAt(live, visits, m - 1);
    }
  }

  /** Each junk value has one original value. */
  ghost predicate OnePreimageEach(rows: seq<Row>, values: seq<string>, repairs: seq<Repair>) {
    forall k :: 0 <= k < |values| ==>
      var postB := Looked(repairs, |repairs|, Some(values[k]));
      IsJunk(postB) ==> OnlyPreimage(rows, repairs, values[k], postB)
  }

  /**
   * Over the first `n` values: wherever the repaired form is junk, the rows claimed under that form are the value's own
   * re-derived rows, or every row with the value was re-derived.
   */
  ghost predicate ClaimsMatch(rows: seq<Row>, values: seq<string>, n: nat, repairs: seq<Repair>, visits: seq<Payload>)
    requires n <= |values|
  {
    forall k :: 0 <= k < n ==> ValueMatches(rows, values[k], repairs, visits)
  }

  ghost predicate ValueMatches(rows: seq<Row>, value: string, repairs: seq<Repair>, visits: seq<Payload>) {
    var postB, derived := Looked(repairs, |repairs|, Some(value)), DerivedIds(visits, |visits|);
    IsJunk(postB) ==>
      || ByValue(RowsLooked(rows, repairs), visits, |visits|, postB) == Rederived(rows, |rows|, derived, value)
      || Unclaimed(rows, |rows|, derived, value) == 0
  }

  lemma {:induction false} DryNulledBound(
    rows: seq<Row>, values: seq<string>, n: nat, repairs: seq<Repair>, visits: seq<Payload>, claimed: map<Option<string>, nat>)
    requires n <= |values| && DistinctIds(rows) && DistinctPayloads(visits) && Joined(visits, rows)
    requires NoneInherited(rows, visits)
    requires forall v :: Claimed(claimed, v) == ByValue(RowsLooked(rows, repairs), visits, |visits|, v)
    ensures var dry := DryNulled(rows, values, n, repairs, claimed);
            var live := FreeJunk(rows, values, n, repairs, DerivedIds(visits, |visits|), |rows|);
            dry <= live && (dry == live <==> ClaimsMatch(rows, values, n, repairs, visits))
  {
    hide RowsLooked, ByValue, Looked, DerivedIds, DistinctIds, DistinctPayloads, Joined;
    if n > 0 {
      DryNulledBound(rows, values, n - 1, repairs, visits, claimed);
      var v := values[n - 1];
      var postB := Looked(repairs, |repairs|, Some(v));
      CountSplits(rows, |rows|, DerivedIds(visits, |visits|), v);
      ClaimedCovers(rows, repairs, visits, |visits|, v, postB);
      assert Claimed(claimed, postB) == ByValue(RowsLooked(rows, repairs), visits, |visits|, postB);
      assert ClaimsMatch(rows, values, n, repairs, visits)
        <==> ClaimsMatch(rows, values, n - 1, repairs, visits) && ValueMatches(rows, v, repairs, visits);
    }
  }

  /**
   * With no repair cascading and no inherited project kept, the dry run never foretells more nulled rows than pass C
   * nulls, and foretells them exactly when the claims match. `values` and `again` are the distinct projects in two
   * orders.
   */
  lemma DryRunForetellsPassC(
    clean: string -> Option<string>, rows: seq<Row>, values: seq<string>, again: seq<string>, visits: seq<Payload>,
    report: Report)
    requires Shrinks(clean) && IsDistinctList(rows, values) && IsDistinctList(rows, again)
    requires NoCascade(Repairs(clean, values, |values|))
    requires DistinctIds(rows) && DistinctPayloads(visits) && Joined(visits, rows) && NoneInherited(rows, visits)
    requires Reports(report, RowsLooked(rows, Repairs(clean, values, |values|)), visits, |visits|)
    ensures var repairs := Repairs(clean, values, |values|);
            var live := RowsRederived(RowsRepaired(rows, repairs, |repairs|), visits, |visits|);
            var dry := DryNulled(rows, again, |again|, repairs, report.claimed);
            var nulled := JunkRows(live, |rows|, DerivedIds(visits, |visits|), |JUNK|);
            dry <= nulled && (dry == nulled <==> ClaimsMatch(rows, again, |again|, repairs, visits))
  {
    var repairs := Repairs(clean, values, |values|);
    DryTakesLiveRows(clean, rows, values);
    JunkBeforePassA(RowsLooked(rows, repairs), visits, |rows|);
    JunkByValue(rows, again, repairs, DerivedIds(visits, |visits|), |rows|);
    DryNulledBound(rows, again, |again|, repairs, visits, report.claimed);
  }

  /** One stored value for each junk value is enough. */
  lemma OnePreimageMatches(rows: seq<Row>, values: seq<string>, repairs: seq<Repair>, visits: seq<Payload>)
    requires DistinctIds(rows) && DistinctPayloads(visits) && Joined(visits, rows) && NoneInherited(rows, visits)
    requires OnePreimageEach(rows, values, repairs)
    ensures ClaimsMatch(rows, values, |values|, repairs, visits)
  {
    forall k | 0 <= k < |values|
      ensures ValueMatches(rows, values[k], repairs, visits)
    {
      ClaimedCovers(rows, repairs, visits, |visits|, values[k], Looked(repairs, |repairs|, Some(values[k])));
    }
  }

  /** An inherited project that pass A keeps is protected from pass C, but the dry run counts its row as nulled. */
  lemma InheritedExample(junk: string)
    requires junk == "projects"
    ensures var rows, visits := [Row("a", Some(junk), Some(INHERITED))], [Payload("a", Some(1), Extracted(None, None))];
            && DryNulled(rows, [junk], 1, [], map[]) == 1
            && (forall v :: ByValue(rows, visits, 1, v) == 0)
            && JunkRows(RowsRederived(rows, visits, 1), 1, DerivedIds(visits, 1), |JUNK|) == 0
  {
    assert Is(Some(junk), JUNK[2]);
    var rows := [Row("a", Some(junk), Some(INHERITED))];
    assert Count(rows, 1, junk) == 1;
  }

  /** Two stored values with one repaired form: the claim of one row is subtracted from both. */
  lemma TwoPreimagesExample(junk: string, other: string)
    requires junk == "System" && other == "System;"
    ensures var rows := [Row("a", Some(junk), None), Row("b", Some(other), None)];
            var repairs := [Repair(other, Some(junk))];
            var visits := [Payload("a", Some(1), Extracted(Some(junk), None))];
            && DryNulled(rows, [junk, other], 2, repairs, map[Some(junk) := 1]) == 0
            && JunkRows(RowsRederived(RowsRepaired(rows, repairs, 1), visits, 1), 2, DerivedIds(visits, 1), |JUNK|) == 1
  {
    assert Is(Some(junk), JUNK[3]);
    var rows := [Row("a", Some(junk), None), Row("b", Some(other), None)];
    var repairs := [Repair(other, Some(junk))];
    assert other != junk && |other| == 7;
    assert Count(rows, 1, junk) == 1 && Count(rows, 1, other) == 0;
    assert Count(rows, 2, junk) == 1 && Count(rows, 2, other) == 1;
    assert Looked(repairs, 0, Some(junk)) == Some(junk);
    assert Looked(repairs, 1, Some(junk)) == Some(junk) && Looked(repairs, 1, Some(other)) == Some(junk);
    assert DryNulled(rows, [junk, other], 0, repairs, map[Some(junk) := 1]) == 0;
    assert [junk, other][0] == junk;
    assert DryNulled(rows, [junk, other], 1, repairs, map[Some(junk) := 1]) == Excess(1, 1);
    var visits := [Payload("a", Some(1), Extracted(Some(junk), None))];
    var live := RowsRepaired(rows, repairs, 1);
    assert Repaired(repairs, 1, Some(other)) == Some(junk) && Repaired(repairs, 1, Some(junk)) == Some(junk);
    var after := RowsRederived(live, visits, 1);
    assert VisitTo(visits, 0, "b") == -1 && VisitTo(visits, 1, "b") == -1;
    assert after[1] == Row("b", Some(junk), None);
    assert JunkRows(after, 1, DerivedIds(visits, 1), |JUNK|) == 0;
  }
}
