/** The three passes amount to one function of each row, and how far a dry run foretells them. */
module BackfillRefinement {
  import opened Wrappers
  import opened ProjectName
  import opened BackfillPasses
  import opened BackfillRun

  function Cleaned(clean: string -> Option<string>, project: Option<string>): Option<string> {
    if project.None? then None else clean(project.value)
  }

  /** What the script promises for one row, given what reading its payload came to. */
  function FinalRow(clean: string -> Option<string>, row: Row, reading: Reading): Row {
    var repaired := row.(project := Cleaned(clean, row.project));
    if reading.Extracted? then RederivedRow(repaired, reading)
    else if IsJunk(repaired.project) then repaired.(project := None)
    else repaired
  }

  /** What pass A read for this id; a payload it did not visit says as much as one without a body. */
  function ReadingOf(visits: seq<Payload>, id: string): Reading {
    var k := VisitTo(visits, |visits|, id);
    if k < 0 then NoBody else visits[k].reading
  }

  // Pass B: one value at a time against one row at a time

  /** No repair produces a value that a later repair rewrites. */
  predicate NoCascade(repairs: seq<Repair>) {
    forall i, j :: 0 <= i < j < |repairs| ==> !Is(repairs[i].cleaned, repairs[j].original)
  }

  function Size(project: Option<string>): nat {
    if project.None? then 0 else |project.value| + 1
  }

  /** A name that `clean` changes gets shorter or is dropped. */
  ghost predicate Shrinks(clean: string -> Option<string>) {
    forall v :: clean(v) == Some(v) || Size(clean(v)) <= |v|
  }

  lemma SanitizeShrinksNames()
    ensures Shrinks(Sanitize)
  {
    forall v
      ensures Sanitize(v) == Some(v) || Size(Sanitize(v)) <= |v|
    {
      if Sanitize(v).Some? {
        SanitizeShrinks(v);
      }
    }
  }

  /** The repairs of distinct values: each shortens its own value, or drops it. */
  predicate WellMade(repairs: seq<Repair>) {
    && (forall k :: 0 <= k < |repairs| ==> Size(repairs[k].cleaned) <= |repairs[k].original|)
    && forall i, j :: 0 <= i < j < |repairs| ==> repairs[i].original != repairs[j].original
  }

  /** Which value the `k`-th repair is for. */
  lemma {:induction false} RepairFor(clean: string -> Option<string>, values: seq<string>, n: nat, k: nat) returns (m: nat)
    requires n <= |values| && k < |Repairs(clean, values, n)|
    ensures m < n && !Is(clean(values[m]), values[m])
    ensures Repairs(clean, values, n)[k] == Repair(values[m], clean(values[m]))
  {
    if k < |Repairs(clean, values, n - 1)| {
      m := RepairFor(clean, values, n - 1, k);
    } else {
      m := n - 1;
    }
  }

  lemma {:induction false} RepairsDiffer(clean: string -> Option<string>, values: seq<string>, n: nat, i: nat, j: nat)
    requires n <= |values| && i < j < |Repairs(clean, values, n)|
    requires forall x, y :: 0 <= x < y < |values| ==> values[x] != values[y]
    ensures Repairs(clean, values, n)[i].original != Repairs(clean, values, n)[j].original
  {
    if j < |Repairs(clean, values, n - 1)| {
      RepairsDiffer(clean, values, n - 1, i, j);
    } else {
      var m := RepairFor(clean, values, n - 1, i);
    }
  }

  /** Every value the sanitizer changes has its repair. */
  lemma {:induction false} ValueRepaired(clean: string -> Option<string>, values: seq<string>, n: nat, m: nat) returns (k: nat)
    requires m < n <= |values| && !Is(clean(values[m]), values[m])
    ensures k < |Repairs(clean, values, n)| && Repairs(clean, values, n)[k] == Repair(values[m], clean(values[m]))
  {
    if m == n - 1 {
      k := |Repairs(clean, values, n)| - 1;
    } else {
      k := ValueRepaired(clean, values, n - 1, m);
    }
  }

  lemma RepairsWellMade(clean: string -> Option<string>, rows: seq<Row>, values: seq<string>)
    requires Shrinks(clean) && IsDistinctList(rows, values)
    ensures WellMade(Repairs(clean, values, |values|))
  {
    var repairs := Repairs(clean, values, |values|);
    forall k | 0 <= k < |repairs|
      ensures Size(repairs[k].cleaned) <= |repairs[k].original|
    {
      var m := RepairFor(clean, values, |values|, k);
    }
    forall i, j | 0 <= i < j < |repairs|
      ensures repairs[i].original != repairs[j].original
    {
      RepairsDiffer(clean, values, |values|, i, j);
    }
  }

  lemma {:induction false} RepairedShrinks(repairs: seq<Repair>, n: nat, m: nat, project: Option<string>)
    requires WellMade(repairs) && n <= m <= |repairs|
    ensures Size(Repaired(repairs, m, project)) <= Size(Repaired(repairs, n, project))
  {
    if n < m {
      RepairedShrinks(repairs, n, m - 1, project);
    }
  }

  /** A value no repair in between is for is left alone. */
  lemma {:induction false} OthersUntouched(repairs: seq<Repair>, n: nat, m: nat, project: Option<string>, now: Option<string>)
    requires n <= m <= |repairs| && Repaired(repairs, n, project) == now
    requires forall k :: n <= k < m ==> !Is(now, repairs[k].original)
    ensures Repaired(repairs, m, project) == now
  {
    if n < m {
      OthersUntouched(repairs, n, m - 1, project, now);
    }
  }

  /** Up to its own repair a value stays; right after it, it is cleaned. */
  lemma RepairedAtOwn(repairs: seq<Repair>, i: nat, project: Option<string>)
    requires WellMade(repairs) && i < |repairs| && Is(project, repairs[i].original)
    ensures Repaired(repairs, i, project) == project
    ensures Repaired(repairs, i + 1, project) == repairs[i].cleaned
  {
    OthersUntouched(repairs, 0, i, project, project);
  }

  lemma {:induction false} LookedOwn(repairs: seq<Repair>, n: nat, k: nat, project: Option<string>)
    requires WellMade(repairs) && k < n <= |repairs| && Is(project, repairs[k].original)
    ensures Looked(repairs, n, project) == repairs[k].cleaned
  {
    if k < n - 1 {
      LookedOwn(repairs, n - 1, k, project);
    }
  }

  lemma {:induction false} LookedOther(repairs: seq<Repair>, n: nat, project: Option<string>)
    requires n <= |repairs| && forall k :: 0 <= k < n ==> !Is(project, repairs[k].original)
    ensures Looked(repairs, n, project) == project
  {
    if n > 0 {
      LookedOther(repairs, n - 1, project);
    }
  }

  /** Without a cascade the updates do to each value what one lookup does. */
  lemma RepairedIsLooked(repairs: seq<Repair>, project: Option<string>)
    requires WellMade(repairs) && NoCascade(repairs)
    ensures Repaired(repairs, |repairs|, project) == Looked(repairs, |repairs|, project)
  {
    if i :| 0 <= i < |repairs| && Is(project, repairs[i].original) {
      LookedOwn(repairs, |repairs|, i, project);
      RepairedAtOwn(repairs, i, project);
      OthersUntouched(repairs, i + 1, |repairs|, project, repairs[i].cleaned);
    } else {
      LookedOther(repairs, |repairs|, project);
      OthersUntouched(repairs, 0, |repairs|, project, project);
    }
  }

  /** The lookup a dry run makes is the sanitizer, on every project of the table. */
  lemma LookedIsCleaned(clean: string -> Option<string>, rows: seq<Row>, values: seq<string>, project: Option<string>)
    requires Shrinks(clean) && IsDistinctList(rows, values) && (project.Some? ==> project.value in values)
    ensures Looked(Repairs(clean, values, |values|), |Repairs(clean, values, |values|)|, project) == Cleaned(clean, project)
  {
    var repairs := Repairs(clean, values, |values|);
    RepairsWellMade(clean, rows, values);
    if project.Some? && !Is(clean(project.value), project.value) {
      var m :| 0 <= m < |values| && values[m] == project.value;
      var k := ValueRepaired(clean, values, |values|, m);
      LookedOwn(repairs, |repairs|, k, project);
    } else {
      forall k | 0 <= k < |repairs|
        ensures !Is(project, repairs[k].original)
      {
        var m := RepairFor(clean, values, |values|, k);
      }
      LookedOther(repairs, |repairs|, project);
    }
  }

  /** A repaired value that a later repair rewrites ends shorter than sanitizing it once leaves it. */
  lemma CascadeGoesTooFar(repairs: seq<Repair>, i: nat, j: nat, project: Option<string>)
    requires WellMade(repairs) && i < j < |repairs| && Is(repairs[i].cleaned, repairs[j].original)
    requires Is(project, repairs[i].original)
    ensures Is(Repaired(repairs, j, project), repairs[j].original)
    ensures Repaired(repairs, |repairs|, project) != repairs[i].cleaned
  {
    RepairedAtOwn(repairs, i, project);
    OthersUntouched(repairs, i + 1, j, project, repairs[i].cleaned);
    RepairedShrinks(repairs, j + 1, |repairs|, project);
  }

  /** Some row of the table carries each value that is repaired. */
  lemma OriginalHasRow(clean: string -> Option<string>, rows: seq<Row>, values: seq<string>, k: nat) returns (i: nat)
    requires Shrinks(clean) && IsDistinctList(rows, values) && k < |Repairs(clean, values, |values|)|
    ensures i < |rows| && Is(rows[i].project, Repairs(clean, values, |values|)[k].original)
  {
    var m := RepairFor(clean, values, |values|, k);
    i :| 0 <= i < |rows| && Is(rows[i].project, values[m]);
  }

  ghost predicate SanitizesAll(clean: string -> Option<string>, rows: seq<Row>, repairs: seq<Repair>) {
    forall i :: 0 <= i < |rows| ==> Repaired(repairs, |repairs|, rows[i].project) == Cleaned(clean, rows[i].project)
  }

  /** Pass B sanitizes every row exactly if no repair cascades, whatever order the values come in. */
  lemma PassBSanitizesExactly(clean: string -> Option<string>, rows: seq<Row>, values: seq<string>)
    requires Shrinks(clean) && IsDistinctList(rows, values)
    ensures SanitizesAll(clean, rows, Repairs(clean, values, |values|)) <==> NoCascade(Repairs(clean, values, |values|))
  {
    var repairs := Repairs(clean, values, |values|);
    if NoCascade(repairs) {
      NoCascadeSanitizes(clean, rows, values);
    } else {
      var i, j :| 0 <= i < j < |repairs| && Is(repairs[i].cleaned, repairs[j].original);
      var r := CascadeMisses(clean, rows, values, i, j);
    }
  }

  lemma NoCascadeSanitizes(clean: string -> Option<string>, rows: seq<Row>, values: seq<string>)
    requires Shrinks(clean) && IsDistinctList(rows, values) && NoCascade(Repairs(clean, values, |values|))
    ensures SanitizesAll(clean, rows, Repairs(clean, values, |values|))
  {
    var repairs := Repairs(clean, values, |values|);
    RepairsWellMade(clean, rows, values);
    forall i | 0 <= i < |rows|
      ensures Repaired(repairs, |repairs|, rows[i].project) == Cleaned(clean, rows[i].project)
    {
      RepairedIsLooked(repairs, rows[i].project);
      LookedIsCleaned(clean, rows, values, rows[i].project);
    }
  }

  lemma CascadeMisses(clean: string -> Option<string>, rows: seq<Row>, values: seq<string>, i: nat, j: nat)
    returns (r: nat)
    requires Shrinks(clean) && IsDistinctList(rows, values) && i < j < |Repairs(clean, values, |values|)|
    requires var repairs := Repairs(clean, values, |values|); Is(repairs[i].cleaned, repairs[j].original)
    ensures var repairs := Repairs(clean, values, |values|);
            && r < |rows|
            && Repaired(repairs, |repairs|, rows[r].project) != Cleaned(clean, rows[r].project)
            && !Is(rows[r].project, repairs[j].original)
            && Is(Repaired(repairs, j, rows[r].project), repairs[j].original)
  {
    var repairs := Repairs(clean, values, |values|);
    RepairsWellMade(clean, rows, values);
    var m := RepairFor(clean, values, |values|, i);
    r := OriginalHasRow(clean, rows, values, i);
    CascadeGoesTooFar(repairs, i, j, rows[r].project);
  }

  /** A sanitizer idempotent on the stored values cannot cascade. */
  lemma IdempotentNeverCascades(clean: string -> Option<string>, rows: seq<Row>, values: seq<string>)
    requires Shrinks(clean) && IsDistinctList(rows, values)
    requires forall v :: v in values && clean(v).Some? ==> clean(clean(v).value) == clean(v)
    ensures NoCascade(Repairs(clean, values, |values|))
  {
    var repairs := Repairs(clean, values, |values|);
    forall i, j | 0 <= i < j < |repairs|
      ensures !Is(repairs[i].cleaned, repairs[j].original)
    {
      var x := RepairFor(clean, values, |values|, i);
      var y := RepairFor(clean, values, |values|, j);
      assert values[x] in values;
    }
  }

  /** Two stored names, the second of which is what the first cleans to and is itself dropped, cascade in that order. */
  lemma CascadeFrom(clean: string -> Option<string>, first: string, second: string)
    requires clean(first) == Some(second) && clean(second) == None && first != second
    ensures !NoCascade(Repairs(clean, [first, second], 2))
  {
    var values := [first, second];
    assert !Is(clean(values[0]), values[0]) && !Is(clean(values[1]), values[1]);
    assert Repairs(clean, values, 0) == [];
    assert Repairs(clean, values, 1) == [Repair(first, Some(second))];
    var repairs := Repairs(clean, values, 2);
    assert repairs[0].cleaned == Some(second) && repairs[1].original == second;
    assert Is(repairs[0].cleaned, repairs[1].original);
  }

  /** The sanitizer has such names, so two stored rows suffice for a cascade. */
  lemma SanitizerCascades(first: string, second: string)
    requires first == "ModelModel" && second == "Model"
    ensures IsDistinctList([Row("a", Some(first), None), Row("b", Some(second), None)], [first, second])
    ensures !NoCascade(Repairs(Sanitize, [first, second], 2))
  {
    hide Sanitize, NoCascade;
    ModelModelIsModel(first, second);
    ModelIsNothing();
    CascadeFrom(Sanitize, first, second);
    var rows := [Row("a", Some(first), None), Row("b", Some(second), None)];
    assert Is(rows[0].project, first) && Is(rows[1].project, second);
  }

  // Pass B's count

  lemma {:induction false} CountGrows(a: seq<Row>, b: seq<Row>, n: nat, v: string, extra: int)
    requires n <= |a| == |b|
    requires forall i :: 0 <= i < n && Is(a[i].project, v) ==> Is(b[i].project, v)
    requires 0 <= extra < n ==> !Is(a[extra].project, v) && Is(b[extra].project, v)
    ensures Count(a, n, v) + (if 0 <= extra < n then 1 else 0) <= Count(b, n, v)
  {
    if n > 0 {
      CountGrows(a, b, n - 1, v, extra);
    }
  }

  lemma {:induction false} CountSame(a: seq<Row>, b: seq<Row>, n: nat, v: string)
    requires n <= |a| == |b|
    requires forall i :: 0 <= i < n ==> (Is(a[i].project, v) <==> Is(b[i].project, v))
    ensures Count(a, n, v) == Count(b, n, v)
  {
    if n > 0 {
      CountSame(a, b, n - 1, v);
    }
  }

  /** Rows that hold a value still hold it when its own update comes. */
  lemma HitStep(rows: seq<Row>, repairs: seq<Repair>, n: nat)
    requires WellMade(repairs) && n < |repairs|
    ensures var now := Count(RowsRepaired(rows, repairs, n), |rows|, repairs[n].original);
            var dry := Count(rows, |rows|, repairs[n].original);
            && dry <= now
            && (NoCascade(repairs) ==> dry == now)
  {
    var after, v := RowsRepaired(rows, repairs, n), repairs[n].original;
    HoldersStay(rows, repairs, n);
    CountGrows(rows, after, |rows|, v, -1);
    if NoCascade(repairs) {
      forall i | 0 <= i < |rows|
        ensures Is(rows[i].project, v) <==> Is(after[i].project, v)
      {
        if after[i].project != rows[i].project {
          var k := ChangedComesFromRepair(repairs, n, rows[i].project);
        }
      }
      CountSame(rows, after, |rows|, v);
    }
  }

  lemma HoldersStay(rows: seq<Row>, repairs: seq<Repair>, n: nat)
    requires WellMade(repairs) && n < |repairs|
    ensures forall i :: 0 <= i < |rows| && Is(rows[i].project, repairs[n].original) ==>
              Is(RowsRepaired(rows, repairs, n)[i].project, repairs[n].original)
  {
    forall i | 0 <= i < |rows| && Is(rows[i].project, repairs[n].original)
      ensures Repaired(repairs, n, rows[i].project) == rows[i].project
    {
      RepairedAtOwn(repairs, n, rows[i].project);
    }
  }

  lemma {:induction false} ChangedComesFromRepair(repairs: seq<Repair>, n: nat, project: Option<string>) returns (k: nat)
    requires n <= |repairs| && Repaired(repairs, n, project) != project
    ensures k < n && Repaired(repairs, n, project) == repairs[k].cleaned
  {
    if Is(Repaired(repairs, n - 1, project), repairs[n - 1].original) {
      k := n - 1;
    } else {
      k := ChangedComesFromRepair(repairs, n - 1, project);
    }
  }

  lemma {:induction false} HitsCompare(rows: seq<Row>, repairs: seq<Repair>, n: nat)
    requires WellMade(repairs) && n <= |repairs|
    ensures RowsMatching(rows, repairs, n) <= RowsHit(rows, repairs, n)
    ensures NoCascade(repairs) ==> RowsMatching(rows, repairs, n) == RowsHit(rows, repairs, n)
  {
    if n > 0 {
      HitsCompare(rows, repairs, n - 1);
      HitStep(rows, repairs, n - 1);
    }
  }

  lemma {:induction false} CascadeOvercounts(rows: seq<Row>, repairs: seq<Repair>, n: nat, j: nat, r: nat)
    requires WellMade(repairs) && j < n <= |repairs| && r < |rows|
    requires !Is(rows[r].project, repairs[j].original) && Is(Repaired(repairs, j, rows[r].project), repairs[j].original)
    ensures RowsMatching(rows, repairs, n) < RowsHit(rows, repairs, n)
  {
    if n == j + 1 {
      HitsCompare(rows, repairs, j);
      HitStep(rows, repairs, j);
      HoldersStay(rows, repairs, j);
      CountGrows(rows, RowsRepaired(rows, repairs, j), |rows|, repairs[j].original, r);
    } else {
      CascadeOvercounts(rows, repairs, n - 1, j, r);
      HitStep(rows, repairs, n - 1);
    }
  }

  /** The dry run foretells the number of rows pass B changes exactly if no repair cascades; otherwise it is too low. */
  lemma DryRepairCountExactly(clean: string -> Option<string>, rows: seq<Row>, values: seq<string>)
    requires Shrinks(clean) && IsDistinctList(rows, values)
    ensures var repairs := Repairs(clean, values, |values|);
            && RowsMatching(rows, repairs, |repairs|) <= RowsHit(rows, repairs, |repairs|)
            && (RowsMatching(rows, repairs, |repairs|) == RowsHit(rows, repairs, |repairs|) <==> NoCascade(repairs))
  {
    var repairs := Repairs(clean, values, |values|);
    RepairsWellMade(clean, rows, values);
    HitsCompare(rows, repairs, |repairs|);
    if !NoCascade(repairs) {
      var i, j :| 0 <= i < j < |repairs| && Is(repairs[i].cleaned, repairs[j].original);
      var r := CascadeMisses(clean, rows, values, i, j);
      CascadeOvercounts(rows, repairs, |repairs|, j, r);
    }
  }

  /** A dry run takes every row to be what pass B leaves, exactly if no repair cascades. */
  lemma DryTakesLiveRows(clean: string -> Option<string>, rows: seq<Row>, values: seq<string>)
    requires Shrinks(clean) && IsDistinctList(rows, values)
    ensures var repairs := Repairs(clean, values, |values|);
            RowsLooked(rows, repairs) == RowsRepaired(rows, repairs, |repairs|) <==> NoCascade(repairs)
  {
    var repairs := Repairs(clean, values, |values|);
    RepairsWellMade(clean, rows, values);
    if NoCascade(repairs) {
      forall i | 0 <= i < |rows|
        ensures RowsLooked(rows, repairs)[i] == RowsRepaired(rows, repairs, |repairs|)[i]
      {
        RepairedIsLooked(repairs, rows[i].project);
      }
    } else {
      var i, j :| 0 <= i < j < |repairs| && Is(repairs[i].cleaned, repairs[j].original);
      var r := CascadeMisses(clean, rows, values, i, j);
      LookedIsCleaned(clean, rows, values, rows[r].project);
      assert RowsLooked(rows, repairs)[r] != RowsRepaired(rows, repairs, |repairs|)[r];
    }
  }

  /** So the report of a dry pass A is the report of the live one: counters, re-derived ids, and claims by value. */
  lemma DryReportsLive(
    clean: string -> Option<string>, rows: seq<Row>, values: seq<string>, visits: seq<Payload>, dry: Report, live: Report)
    requires Shrinks(clean) && IsDistinctList(rows, values) && NoCascade(Repairs(clean, values, |values|))
    requires Reports(dry, RowsLooked(rows, Repairs(clean, values, |values|)), visits, |visits|)
    requires var repairs := Repairs(clean, values, |values|);
             Reports(live, RowsRepaired(rows, repairs, |repairs|), visits, |visits|)
    ensures dry.counters == live.counters && dry.derived == live.derived
    ensures forall v :: Claimed(dry.claimed, v) == Claimed(live.claimed, v)
  {
    DryTakesLiveRows(clean, rows, values);
  }

  // The live run

  lemma {:induction false} DerivedIff(visits: seq<Payload>, n: nat, id: string)
    requires n <= |visits| && DistinctPayloads(visits)
    ensures id in DerivedIds(visits, n) <==> VisitTo(visits, n, id) >= 0 && visits[VisitTo(visits, n, id)].reading.Extracted?
  {
    if n > 0 {
      DerivedIff(visits, n - 1, id);
      if id in DerivedIds(visits, n - 1) {
        VisitFinds(visits, n - 1, id);
      }
    }
  }

  lemma {:induction false} VisitFinds(visits: seq<Payload>, n: nat, id: string)
    requires n <= |visits|
    ensures VisitTo(visits, n, id) >= 0 ==> visits[VisitTo(visits, n, id)].id == id
  {
    if n > 0 && visits[n - 1].id != id {
      VisitFinds(visits, n - 1, id);
    }
  }

  /** The table after a live run that pass A did not stop. */
  function Final(rows: seq<Row>, repairs: seq<Repair>, visits: seq<Payload>): (r: seq<Row>)
    ensures |r| == |rows|
  {
    RowsNulled(
      RowsRederived(RowsRepaired(rows, repairs, |repairs|), visits, |visits|), DerivedIds(visits, |visits|), |JUNK|)
  }

  lemma RederivedAt(rows: seq<Row>, visits: seq<Payload>, i: nat)
    requires DistinctPayloads(visits) && i < |rows|
    ensures RowsRederived(rows, visits, |visits|)[i] == RederivedRow(rows[i], ReadingOf(visits, rows[i].id))
    ensures rows[i].id in DerivedIds(visits, |visits|) <==> ReadingOf(visits, rows[i].id).Extracted?
  {
    DerivedIff(visits, |visits|, rows[i].id);
  }

  lemma NulledAt(rows: seq<Row>, derived: set<string>, i: nat)
    requires i < |rows|
    ensures RowsNulled(rows, derived, |JUNK|)[i]
         == if IsJunk(rows[i].project) && rows[i].id !in derived then rows[i].(project := None) else rows[i]
  {
  }

  /** Some repair's result is a value that a later repair rewrites, and this project goes through both. */
  predicate Cascades(repairs: seq<Repair>, project: Option<string>) {
    exists i, j :: 0 <= i < j < |repairs| && Is(project, repairs[i].original) && Is(repairs[i].cleaned, repairs[j].original)
  }

  lemma OwnRepairOnly(repairs: seq<Repair>, i: nat, project: Option<string>)
    requires WellMade(repairs) && i < |repairs| && Is(project, repairs[i].original)
    requires forall j :: i < j < |repairs| ==> !Is(repairs[i].cleaned, repairs[j].original)
    ensures !Cascades(repairs, project)
  {
  }

  /** The updates do to a value other than one lookup does exactly if it cascades. */
  lemma RepairedUnlessCascades(repairs: seq<Repair>, project: Option<string>)
    requires WellMade(repairs)
    ensures Repaired(repairs, |repairs|, project) != Looked(repairs, |repairs|, project) <==> Cascades(repairs, project)
  {
    if i :| 0 <= i < |repairs| && Is(project, repairs[i].original) {
      LookedOwn(repairs, |repairs|, i, project);
      if j :| i < j < |repairs| && Is(repairs[i].cleaned, repairs[j].original) {
        CascadeGoesTooFar(repairs, i, j, project);
      } else {
        RepairedAtOwn(repairs, i, project);
        OthersUntouched(repairs, i + 1, |repairs|, project, repairs[i].cleaned);
        OwnRepairOnly(repairs, i, project);
      }
    } else {
      LookedOther(repairs, |repairs|, project);
      OthersUntouched(repairs, 0, |repairs|, project, project);
    }
  }

  /** Pass B leaves a stored project other than sanitized exactly if it cascades. */
  lemma CascadesExactly(clean: string -> Option<string>, rows: seq<Row>, values: seq<string>, r: nat)
    requires Shrinks(clean) && IsDistinctList(rows, values) && r < |rows|
    ensures var repairs := Repairs(clean, values, |values|);
            Repaired(repairs, |repairs|, rows[r].project) != Cleaned(clean, rows[r].project)
            <==> Cascades(repairs, rows[r].project)
  {
    RepairsWellMade(clean, rows, values);
    LookedIsCleaned(clean, rows, values, rows[r].project);
    RepairedUnlessCascades(Repairs(clean, values, |values|), rows[r].project);
  }

  function WithoutJunk(project: Option<string>): Option<string> {
    if IsJunk(project) then None else project
  }

  /**
   * A cascade shows in the row after the run: what pass A re-derives hides it, but for the source it records only when
   * the project changes; what it keeps as inherited shows it; and of other rows it shows what pass C does not null.
   */
  predicate CascadeShows(clean: string -> Option<string>, repairs: seq<Repair>, row: Row, reading: Reading) {
    var now, due := Repaired(repairs, |repairs|, row.project), Cleaned(clean, row.project);
    if reading.Extracted? then
      if Inherited(reading, row.source) then now != due
      else row.source != reading.source && (now == reading.project) != (due == reading.project)
    else WithoutJunk(now) != WithoutJunk(due)
  }

  lemma PerRowExactly(clean: string -> Option<string>, rows: seq<Row>, repairs: seq<Repair>, visits: seq<Payload>, i: nat)
    requires DistinctPayloads(visits) && i < |rows|
    ensures Final(rows, repairs, visits)[i] == FinalRow(clean, rows[i], ReadingOf(visits, rows[i].id))
       <==> !CascadeShows(clean, repairs, rows[i], ReadingOf(visits, rows[i].id))
  {
    var live := RowsRepaired(rows, repairs, |repairs|);
    RederivedAt(live, visits, i);
    NulledAt(RowsRederived(live, visits, |visits|), DerivedIds(visits, |visits|), i);
  }

  /**
   * Passes B, A and C, each set at a time, leave a row as one function of that row and its payload says, exactly if no
   * cascade shows in it: the extracted project if its payload re-derived, the cleaned one if it was inherited and
   * re-derives to nothing, and otherwise the cleaned one with junk dropped. A cascade shows only in rows that cascade.
   */
  lemma LiveRunIsPerRow(clean: string -> Option<string>, rows: seq<Row>, values: seq<string>, visits: seq<Payload>, i: nat)
    requires Shrinks(clean) && IsDistinctList(rows, values) && DistinctPayloads(visits) && i < |rows|
    ensures var repairs, reading := Repairs(clean, values, |values|), ReadingOf(visits, rows[i].id);
            && (Final(rows, repairs, visits)[i] == FinalRow(clean, rows[i], reading)
                <==> !CascadeShows(clean, repairs, rows[i], reading))
            && (CascadeShows(clean, repairs, rows[i], reading) ==> Cascades(repairs, rows[i].project))
  {
    hide Final, FinalRow, Repairs, CascadeShows, Cascades;
    var repairs := Repairs(clean, values, |values|);
    PerRowExactly(clean, rows, repairs, visits, i);
    CascadesExactly(clean, rows, values, i);
    ShowsOnlyChange(clean, repairs, rows[i], ReadingOf(visits, rows[i].id));
  }

  lemma ShowsOnlyChange(clean: string -> Option<string>, repairs: seq<Repair>, row: Row, reading: Reading)
    ensures CascadeShows(clean, repairs, row, reading) ==> Repaired(repairs, |repairs|, row.project) != Cleaned(clean, row.project)
  {
  }

  /** So without a cascade every row. */
  lemma NoCascadeIsPerRow(
    clean: string -> Option<string>, rows: seq<Row>, values: seq<string>, visits: seq<Payload>, i: nat)
    requires Shrinks(clean) && IsDistinctList(rows, values) && NoCascade(Repairs(clean, values, |values|))
    requires DistinctPayloads(visits) && i < |rows|
    ensures Final(rows, Repairs(clean, values, |values|), visits)[i] == FinalRow(clean, rows[i], ReadingOf(visits, rows[i].id))
  {
    hide Final, FinalRow, Repairs, CascadeShows;
    LiveRunIsPerRow(clean, rows, values, visits, i);
    NeverCascades(Repairs(clean, values, |values|), rows[i].project);
  }

  lemma NeverCascades(repairs: seq<Repair>, project: Option<string>)
    requires NoCascade(repairs)
    ensures !Cascades(repairs, project)
  {
  }

  lemma PerRow(clean: string -> Option<string>, rows: seq<Row>, repairs: seq<Repair>, visits: seq<Payload>, i: nat)
    requires SanitizesAll(clean, rows, repairs) && DistinctPayloads(visits) && i < |rows|
    ensures Final(rows, repairs, visits)[i] == FinalRow(clean, rows[i], ReadingOf(visits, rows[i].id))
  {
    PerRowExactly(clean, rows, repairs, visits, i);
  }

  /** Sanitizing the name again changes nothing. */
  predicate Settled(clean: string -> Option<string>, v: string) {
    clean(v).Some? ==> clean(clean(v).value) == clean(v)
  }

  lemma FinalRowSettles(clean: string -> Option<string>, row: Row, reading: Reading)
    requires row.project.Some? ==> Settled(clean, row.project.value)
    ensures FinalRow(clean, FinalRow(clean, row, reading), reading) == FinalRow(clean, row, reading)
  {
  }

  /**
   * A second live run over the same payloads changes nothing, for a sanitizer settled on the names it finds. `values`
   * and `again` are the distinct projects before either run.
   */
  lemma SecondRunChangesNothing(
    clean: string -> Option<string>, rows: seq<Row>, values: seq<string>, again: seq<string>, visits: seq<Payload>)
    requires Shrinks(clean) && IsDistinctList(rows, values) && DistinctPayloads(visits)
    requires IsDistinctList(Final(rows, Repairs(clean, values, |values|), visits), again)
    requires forall v :: v in values || v in again ==> Settled(clean, v)
    ensures var done := Final(rows, Repairs(clean, values, |values|), visits);
            Final(done, Repairs(clean, again, |again|), visits) == done
  {
    hide Final, FinalRow, Repairs;
    var done := Final(rows, Repairs(clean, values, |values|), visits);
    IdempotentNeverCascades(clean, rows, values);
    IdempotentNeverCascades(clean, done, again);
    NoCascadeSanitizes(clean, done, again);
    forall i | 0 <= i < |rows|
      ensures Final(done, Repairs(clean, again, |again|), visits)[i] == done[i]
    {
      NoCascadeIsPerRow(clean, rows, values, visits, i);
      SecondRunRow(clean, rows[i], done, Repairs(clean, again, |again|), visits, i);
    }
  }

  lemma SecondRunRow(
    clean: string -> Option<string>, row: Row, done: seq<Row>, repairs: seq<Repair>, visits: seq<Payload>, i: nat)
    requires SanitizesAll(clean, done, repairs) && DistinctPayloads(visits) && i < |done|
    requires row.project.Some? ==> Settled(clean, row.project.value)
    requires done[i] == FinalRow(clean, row, ReadingOf(visits, row.id))
    ensures Final(done, repairs, visits)[i] == done[i]
  {
    PerRow(clean, done, repairs, visits, i);
    FinalRowSettles(clean, row, ReadingOf(visits, row.id));
  }

  /** A visited row is read as its payload says, and another as if it had none. */
  lemma ReadingIs(visits: seq<Payload>, id: string)
    requires DistinctPayloads(visits)
    ensures forall k :: 0 <= k < |visits| && visits[k].id == id ==> ReadingOf(visits, id) == visits[k].reading
    ensures (forall k :: 0 <= k < |visits| ==> visits[k].id != id) ==> ReadingOf(visits, id) == NoBody
  {
    VisitFinds(visits, |visits|, id);
    forall k | 0 <= k < |visits| && visits[k].id == id
      ensures ReadingOf(visits, id) == visits[k].reading
    {
      VisitAt(visits, |visits|, id, k);
    }
  }

  /**
   * The row after a run that found it with `project` after pass B: at the project its payload re-derives to; at none if
   * that is nothing, unless the stored source says it was inherited from its session; and where no payload re-derives
   * it, without one of the junk names. The source is the extracted one just where pass A changes the project.
   */
  predicate LeftAs(row: Row, project: Option<string>, reading: Reading, after: Row) {
    after.id == row.id &&
    match reading
    case Extracted(Some(p), source) =>
      after.project == Some(p) && after.source == if project == Some(p) then row.source else source
    case Extracted(None, source) =>
      if row.source == Some("session_inherited") then after.project == project && after.source == row.source
      else after.project == None && after.source == if project == None then row.source else source
    case _ =>
      && after.source == row.source
      && after.project ==
           if project in {Some(".claude"), Some(".codex"), Some("projects"), Some("System"), Some("Harness"),
                          Some("User's Current Configuration")} then None else project
  }

  lemma JunkIs(project: Option<string>)
    ensures IsJunk(project)
       <==> project in {Some(".claude"), Some(".codex"), Some("projects"), Some("System"), Some("Harness"),
                        Some("User's Current Configuration")}
  {
    forall k | 0 <= k < |JUNK| && project == Some(JUNK[k])
      ensures IsJunk(project)
    {
      assert Is(project, JUNK[k]);
    }
    assert JUNK[0] == ".claude" && JUNK[1] == ".codex" && JUNK[2] == "projects" && JUNK[3] == "System"
        && JUNK[4] == "Harness" && JUNK[5] == "User's Current Configuration";
  }

  /** What passes A and C leave of every row pass B left. */
  lemma LiveRunLeaves(rows: seq<Row>, repairs: seq<Repair>, visits: seq<Payload>, i: nat)
    requires DistinctPayloads(visits) && i < |rows|
    ensures LeftAs(rows[i], RowsRepaired(rows, repairs, |repairs|)[i].project, ReadingOf(visits, rows[i].id),
                   Final(rows, repairs, visits)[i])
  {
    var live := RowsRepaired(rows, repairs, |repairs|);
    hide IsJunk;
    RederivedAt(live, visits, i);
    NulledAt(RowsRederived(live, visits, |visits|), DerivedIds(visits, |visits|), i);
    JunkIs(live[i].project);
  }

  // Pass A's report

  function Readings(visits: seq<Payload>, n: nat): seq<Reading>
    requires n <= |visits|
  {
    seq(n, k requires 0 <= k < n => visits[k].reading)
  }

  /** The rows the first `n` visits changed. */
  function Changed(rows: seq<Row>, visits: seq<Payload>, n: nat): set<nat>
    requires n <= |visits|
  {
    set i: nat | i < |rows| && RowsRederived(rows, visits, n)[i] != rows[i]
  }

  lemma ChangedMore(rows: seq<Row>, visits: seq<Payload>, n: nat, i: nat)
    requires DistinctIds(rows) && DistinctPayloads(visits) && n < |visits| && i < |rows| && rows[i].id == visits[n].id
    ensures Changed(rows, visits, n + 1)
         == Changed(rows, visits, n) + if RederivedRow(rows[i], visits[n].reading) != rows[i] then {i} else {}
    ensures i !in Changed(rows, visits, n)
  {
    hide RederivedRow;
    VisitAt(visits, n, visits[n].id, n);
    VisitAt(visits, n + 1, visits[n].id, n);
    forall k: nat | k < |rows| && k != i
      ensures VisitTo(visits, n + 1, rows[k].id) == VisitTo(visits, n, rows[k].id)
    {
      assert rows[k].id != rows[i].id;
    }
  }

  /** Every reading is counted, as what it came to. */
  predicate Counted(c: Counters, readings: seq<Reading>) {
    && c.examined == |readings| == c.changed + c.same + c.skippedNoBody + |c.failed|
    && c.skippedNoBody == multiset(readings)[NoBody]
    && forall why :: c.failed[why] == multiset(readings)[Failed(why)]
  }

  lemma CountedMore(c: Counters, readings: seq<Reading>, row: Row, reading: Reading)
    requires Counted(c, readings) && !reading.Locked?
    ensures Counted(Tallied(c, row, reading), readings + [reading])
    ensures Tallied(c, row, reading).changed == c.changed + if RederivedRow(row, reading) != row then 1 else 0
  {
  }

  /**
   * The counters of a pass that met no locked payload: every visit is counted once, by what reading it came to, and the
   * changed ones are the rows that are no longer as they were.
   */
  lemma {:induction false} TallyCounts(rows: seq<Row>, visits: seq<Payload>, n: nat)
    requires n <= |visits| && DistinctIds(rows) && DistinctPayloads(visits) && Joined(visits, rows) && Unlocked(visits, n)
    ensures Counted(Tally(rows, visits, n), Readings(visits, n))
    ensures Tally(rows, visits, n).changed == |Changed(rows, visits, n)|
  {
    hide Changed, Counted, Tallied, RederivedRow, Readings, DistinctIds, DistinctPayloads;
    if n == 0 {
      NothingTallied(rows, visits);
    } else {
      TallyCounts(rows, visits, n - 1);
      var i := Find(rows, |rows|, visits[n - 1].id);
      FindFinds(rows, |rows|, visits[n - 1].id);
      CountedMore(Tally(rows, visits, n - 1), Readings(visits, n - 1), rows[i], visits[n - 1].reading);
      ChangedMore(rows, visits, n - 1, i);
      ReadingsMore(visits, n);
    }
  }

  lemma NothingTallied(rows: seq<Row>, visits: seq<Payload>)
    ensures Counted(ZERO, Readings(visits, 0)) && Changed(rows, visits, 0) == {}
  {
  }

  lemma ReadingsMore(visits: seq<Payload>, n: nat)
    requires 0 < n <= |visits|
    ensures Readings(visits, n) == Readings(visits, n - 1) + [visits[n - 1].reading]
  {
  }

  /** The rows with this project that the first `n` visits re-derived, but for those kept as inherited. */
  function Claimants(rows: seq<Row>, visits: seq<Payload>, n: nat, project: Option<string>): set<nat>
    requires n <= |visits|
  {
    set i: nat | i < |rows| && rows[i].project == project
                 && exists k :: 0 <= k < n && visits[k].id == rows[i].id && visits[k].reading.Extracted?
                                && (visits[k].reading.project.Some? || rows[i].source != Some("session_inherited"))
  }

  lemma ClaimantsMore(rows: seq<Row>, visits: seq<Payload>, n: nat, project: Option<string>, i: nat)
    requires DistinctIds(rows) && DistinctPayloads(visits) && n < |visits| && i < |rows| && rows[i].id == visits[n].id
    ensures Claimants(rows, visits, n + 1, project)
         == Claimants(rows, visits, n, project)
            + if Claims(rows[i], visits[n].reading) && rows[i].project == project then {i} else {}
    ensures i !in Claimants(rows, visits, n, project)
  {
    forall k: nat | k < |rows| && k != i
      ensures k in Claimants(rows, visits, n + 1, project) <==> k in Claimants(rows, visits, n, project)
    {
      assert rows[k].id != rows[i].id;
    }
  }

  /** What a pass claims by value is how many such rows there are. */
  lemma {:induction false} ClaimsCount(rows: seq<Row>, visits: seq<Payload>, n: nat, project: Option<string>)
    requires n <= |visits| && DistinctIds(rows) && DistinctPayloads(visits) && Joined(visits, rows)
    ensures ByValue(rows, visits, n, project) == |Claimants(rows, visits, n, project)|
  {
    hide Claimants, Claims, DistinctIds, DistinctPayloads;
    if n == 0 {
      NobodyClaims(rows, visits, project);
    } else {
      ClaimsCount(rows, visits, n - 1, project);
      var i := Find(rows, |rows|, visits[n - 1].id);
      FindFinds(rows, |rows|, visits[n - 1].id);
      ClaimantsMore(rows, visits, n - 1, project, i);
    }
  }

  lemma NobodyClaims(rows: seq<Row>, visits: seq<Payload>, project: Option<string>)
    ensures Claimants(rows, visits, 0, project) == {}
  {
  }

  /** Pass A visits exactly the joined payloads up to the high-water key, each once. */
  lemma {:induction false} VisitsEachOnce(payloads: seq<Payload>, n: nat, rows: seq<Row>, highWater: Key, p: Payload)
    requires n <= |payloads| && SortedByKey(payloads) && DistinctPayloads(payloads)
    ensures p in Matching(payloads, n, rows, START, highWater) <==> p in payloads[..n] && Admits(p, rows, START, highWater)
    ensures DistinctPayloads(Matching(payloads, n, rows, START, highWater))
  {
    MatchingFacts(payloads, n, rows, START, highWater);
    if n > 0 {
      VisitsEachOnce(payloads, n - 1, rows, highWater, p);
      assert payloads[..n] == payloads[..n - 1] + [payloads[n - 1]];
    }
  }

  /** The live script, when nothing stops it: per row, but where a cascade of the real sanitizer shows. */
  method RunLive(db: Database, batchSize: nat, values: seq<string>) returns (ok: bool)
    requires db.Valid() && batchSize > 0 && IsDistinctList(db.requests, values)
    modifies db
    ensures ok <==> Unlocked(old(db.Visits()), |old(db.Visits())|)
    ensures ok ==> |db.requests| == |old(db.requests)|
    ensures ok ==> forall i :: 0 <= i < |db.requests| ==>
      var row, reading := old(db.requests)[i], ReadingOf(old(db.Visits()), old(db.requests)[i].id);
      db.requests[i] == FinalRow(Sanitize, row, reading)
      <==> !CascadeShows(Sanitize, Repairs(Sanitize, values, |values|), row, reading)
    ensures ok ==> forall i :: 0 <= i < |db.requests| ==>
      var repairs := Repairs(Sanitize, values, |values|);
      LeftAs(old(db.requests)[i], RowsRepaired(old(db.requests), repairs, |repairs|)[i].project,
             ReadingOf(old(db.Visits()), old(db.requests)[i].id), db.requests[i])
  {
    ghost var rows, visits := db.requests, db.Visits();
    if db.started > 0 {
      MatchingFacts(db.payloads, |db.payloads|, rows, START, KeyOf(db.payloads[db.started - 1]));
    }
    SanitizeShrinksNames();
    var repaired, report, nulled;
    ghost var visited;
    ok, repaired, report, nulled, visited := db.Run(false, batchSize, values, values);
    if ok {
      forall i | 0 <= i < |rows|
        ensures db.requests[i] == FinalRow(Sanitize, rows[i], ReadingOf(visits, rows[i].id))
           <==> !CascadeShows(Sanitize, Repairs(Sanitize, values, |values|), rows[i], ReadingOf(visits, rows[i].id))
      {
        LiveRunIsPerRow(Sanitize, rows, values, visits, i);
      }
      ghost var repairs := Repairs(Sanitize, values, |values|);
      forall i | 0 <= i < |rows|
        ensures LeftAs(rows[i], RowsRepaired(rows, repairs, |repairs|)[i].project, ReadingOf(visits, rows[i].id),
                       db.requests[i])
      {
        LiveRunLeaves(rows, repairs, visits, i);
      }
    }
  }
}
