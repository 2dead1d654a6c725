/** The script itself: three passes over the tables, or their dry run. */
module BackfillRun {
  import opened Wrappers
  import opened ProjectName
  import opened BackfillPasses

  lemma {:induction false} VisitAt(visits: seq<Payload>, n: nat, id: string, k: nat)
    requires n <= |visits| && DistinctPayloads(visits) && k < |visits| && visits[k].id == id
    ensures VisitTo(visits, n, id) == if k < n then k else -1
  {
    if n > 0 {
      VisitAt(visits, n - 1, id, k);
    }
  }

  /** One more visit changes at most the visited row. */
  lemma RederiveStep(rows: seq<Row>, visits: seq<Payload>, n: nat, p: Payload, i: nat)
    requires DistinctIds(rows) && DistinctPayloads(visits) && n < |visits| && visits[n] == p
    requires i < |rows| && rows[i].id == p.id
    ensures RowsRederived(rows, visits, n + 1)
         == var next := RederivedRow(rows[i], p.reading);
            if next == rows[i] then RowsRederived(rows, visits, n)
            else Assigned(RowsRederived(rows, visits, n), Update(next.id, next.project, next.source))
  {
    VisitAt(visits, n, p.id, n);
    forall k | 0 <= k < |rows| && k != i
      ensures VisitTo(visits, n + 1, rows[k].id) == VisitTo(visits, n, rows[k].id)
    {
      assert rows[k].id != rows[i].id;
    }
  }

  /** What pass A has counted, the ids it re-derived, and how many rows of each project it claimed. */
  datatype Report = Report(counters: Counters, derived: set<string>, claimed: map<Option<string>, nat>)

  const NOTHING := Report(ZERO, {}, map[])

  function Claimed(claimed: map<Option<string>, nat>, project: Option<string>): nat {
    if project in claimed then claimed[project] else 0
  }

  function Noted(r: Report, row: Row, reading: Reading): Report {
    Report(
      Tallied(r.counters, row, reading),
      if reading.Extracted? then r.derived + {row.id} else r.derived,
      if Claims(row, reading) then r.claimed[row.project := Claimed(r.claimed, row.project) + 1] else r.claimed)
  }

  /** The report is that of the first `n` visits to `rows`. */
  ghost predicate Reports(r: Report, rows: seq<Row>, visits: seq<Payload>, n: nat)
    requires n <= |visits|
  {
    && r.counters == Tally(rows, visits, n)
    && r.derived == DerivedIds(visits, n)
    && forall v :: Claimed(r.claimed, v) == ByValue(rows, visits, n, v)
  }

  lemma TallyStep(r: Report, rows: seq<Row>, visits: seq<Payload>, n: nat, p: Payload, i: nat)
    requires n < |visits| && visits[n] == p && r.counters == Tally(rows, visits, n)
    requires i < |rows| && Find(rows, |rows|, p.id) == i
    ensures Noted(r, rows[i], p.reading).counters == Tally(rows, visits, n + 1)
  {
  }

  lemma DerivedStep(r: Report, row: Row, visits: seq<Payload>, n: nat, p: Payload)
    requires n < |visits| && visits[n] == p && row.id == p.id && r.derived == DerivedIds(visits, n)
    ensures Noted(r, row, p.reading).derived == DerivedIds(visits, n + 1)
  {
    assert DerivedIds(visits, n) + {} == DerivedIds(visits, n);
  }

  lemma ClaimStep(r: Report, rows: seq<Row>, visits: seq<Payload>, n: nat, p: Payload, i: nat, v: Option<string>)
    requires n < |visits| && visits[n] == p && Claimed(r.claimed, v) == ByValue(rows, visits, n, v)
    requires i < |rows| && Find(rows, |rows|, p.id) == i
    ensures Claimed(Noted(r, rows[i], p.reading).claimed, v) == ByValue(rows, visits, n + 1, v)
  {
  }

  lemma NoteStep(r: Report, rows: seq<Row>, visits: seq<Payload>, n: nat, p: Payload, i: nat)
    requires n < |visits| && visits[n] == p && Reports(r, rows, visits, n)
    requires i < |rows| && rows[i].id == p.id && Find(rows, |rows|, p.id) == i
    ensures Reports(Noted(r, rows[i], p.reading), rows, visits, n + 1)
  {
    TallyStep(r, rows, visits, n, p, i);
    DerivedStep(r, rows[i], visits, n, p);
    forall v
      ensures Claimed(Noted(r, rows[i], p.reading).claimed, v) == ByValue(rows, visits, n + 1, v)
    {
      ClaimStep(r, rows, visits, n, p, i, v);
    }
  }

  function Pended(pending: seq<Update>, row: Row, reading: Reading): seq<Update> {
    var next := RederivedRow(row, reading);
    if next == row then pending else pending + [Update(next.id, next.project, next.source)]
  }

  /** The updates a page has decided so far, applied to the table, complete its first `n` visits. */
  ghost predicate Decides(requests: seq<Row>, pending: seq<Update>, rows: seq<Row>, visits: seq<Payload>, n: nat)
    requires n <= |visits|
  {
    AllAssigned(requests, pending, |pending|) == RowsRederived(rows, visits, n)
  }

  lemma PendStep(requests: seq<Row>, pending: seq<Update>, rows: seq<Row>, visits: seq<Payload>, n: nat, p: Payload, i: nat)
    requires DistinctIds(rows) && DistinctPayloads(visits) && n < |visits| && visits[n] == p
    requires i < |rows| && rows[i].id == p.id && Decides(requests, pending, rows, visits, n)
    ensures Decides(requests, Pended(pending, rows[i], p.reading), rows, visits, n + 1)
  {
    RederiveStep(rows, visits, n, p, i);
    var next := Pended(pending, rows[i], p.reading);
    if next != pending {
      AllAssignedPrefix(requests, next, |pending|);
      assert next[..|pending|] == pending;
    }
  }

  /** The table after `n` visits; a dry run writes nothing. */
  function Written(dryRun: bool, before: seq<Row>, visits: seq<Payload>, n: nat): (r: seq<Row>)
    requires n <= |visits|
    ensures SameIdsAs(before, r)
  {
    if dryRun then before else RowsRederived(before, visits, n)
  }

  /** The rows as pass A takes them to be: live as they are stored, in a dry run as pass B would have left them. */
  function Taken(dryRun: bool, before: seq<Row>, repairs: seq<Repair>): (r: seq<Row>)
    ensures SameIdsAs(before, r)
  {
    if dryRun then RowsLooked(before, repairs) else before
  }

  predicate SameIdsAs(a: seq<Row>, b: seq<Row>) {
    |a| == |b| && forall i :: 0 <= i < |a| ==> a[i].id == b[i].id
  }

  /** No payload below `n` stopped the run. */
  ghost predicate Unlocked(visits: seq<Payload>, n: nat) {
    n <= |visits| && forall k :: 0 <= k < n ==> !visits[k].reading.Locked?
  }

  lemma UnlockedNext(visits: seq<Payload>, n: nat)
    requires Unlocked(visits, n) && n < |visits| && !visits[n].reading.Locked?
    ensures Unlocked(visits, n + 1)
  {
  }

  lemma DecidesNone(dryRun: bool, requests: seq<Row>, before: seq<Row>, visits: seq<Payload>, n: nat)
    requires n <= |visits| && requests == Written(dryRun, before, visits, n)
    ensures !dryRun ==> Decides(requests, [], before, visits, n)
  {
  }

  class Database {
    var requests: seq<Row>
    const payloads: seq<Payload>
    const started: nat

    /** `started`: how many of the payloads existed when pass A began; the rest arrived later. */
    constructor (requests: seq<Row>, payloads: seq<Payload>, started: nat)
      ensures this.requests == requests && this.payloads == payloads && this.started == started
    {
      this.requests, this.payloads, this.started := requests, payloads, started;
    }

    ghost predicate Valid()
      reads this
    {
      DistinctIds(requests) && SortedByKey(payloads) && DistinctPayloads(payloads) && started <= |payloads|
    }

    /** The payload rows pass A visits, in order. */
    function Visits(): seq<Payload>
      requires started <= |payloads|
      reads this
    {
      if started == 0 then [] else Matching(payloads, |payloads|, requests, START, KeyOf(payloads[started - 1]))
    }

    method RunPassB(dryRun: bool, values: seq<string>) returns (repairs: seq<Repair>, rowsChanged: nat)
      modifies this`requests
      ensures repairs == Repairs(Sanitize, values, |values|)
      ensures requests == if dryRun then old(requests) else RowsRepaired(old(requests), repairs, |repairs|)
      ensures rowsChanged == if dryRun then RowsMatching(old(requests), repairs, |repairs|)
                                       else RowsHit(old(requests), repairs, |repairs|)
    {
      hide Sanitize;
      repairs := [];
      for i := 0 to |values|
        invariant repairs == Repairs(Sanitize, values, i)
        invariant requests == old(requests)
      {
        var cleaned := Sanitize(values[i]);
        if !Is(cleaned, values[i]) {
          repairs := repairs + [Repair(values[i], cleaned)];
        }
      }
      rowsChanged := 0;
      for k := 0 to |repairs|
        invariant requests == if dryRun then old(requests) else RowsRepaired(old(requests), repairs, k)
        invariant rowsChanged == if dryRun then RowsMatching(old(requests), repairs, k) else RowsHit(old(requests), repairs, k)
      {
        var original, cleaned := repairs[k].original, repairs[k].cleaned;
        rowsChanged := rowsChanged + Count(requests, |requests|, original);
        if !dryRun {
          RepairStep(old(requests), repairs, k);
          requests := seq(|requests|, i requires 0 <= i < |requests| reads this =>
            if Is(requests[i].project, original) then requests[i].(project := cleaned) else requests[i]);
        }
      }
    }

    /**
     * Pass A, in batches. It stops at the first encrypted payload it has no key for, and then leaves the batch that
     * met it unwritten; `visited` counts the visits whose batch was written.
     */
    method RunPassA(dryRun: bool, batchSize: nat, repairs: seq<Repair>)
      returns (ok: bool, ghost visited: nat, report: Report)
      requires Valid() && batchSize > 0
      modifies this`requests
      ensures ghost var visits := old(Visits());
              && Unlocked(visits, visited)
              && requests == Written(dryRun, old(requests), visits, visited)
              && (ok ==> visited == |visits| && Reports(report, Taken(dryRun, old(requests), repairs), visits, visited))
              && (!ok ==> exists k :: visited <= k < |visits| && k < visited + batchSize && visits[k].reading.Locked?)
    {
      ok, visited, report := true, 0, NOTHING;
      RederivedNone(requests, Visits());
      if started == 0 {
        return;
      }
      var highWater := KeyOf(payloads[started - 1]);
      VisitsUsable(payloads, requests, highWater);
      ok, visited, report := WalkPages(dryRun, batchSize, repairs, highWater, Visits());
    }

    /** The keyset walk: one page after another from the cursor, until a page comes back short. */
    method WalkPages(dryRun: bool, batchSize: nat, repairs: seq<Repair>, highWater: Key, ghost visits: seq<Payload>)
      returns (ok: bool, ghost visited: nat, report: Report)
      requires Valid() && batchSize > 0
      requires visits == Matching(payloads, |payloads|, requests, START, highWater)
      requires DistinctPayloads(visits) && Joined(visits, requests)
      modifies this`requests
      ensures Unlocked(visits, visited) && requests == Written(dryRun, old(requests), visits, visited)
      ensures ok ==> visited == |visits| && Reports(report, Taken(dryRun, old(requests), repairs), visits, visited)
      ensures !ok ==> exists k :: visited <= k < |visits| && k < visited + batchSize && visits[k].reading.Locked?
    {
      ghost var before := requests;
      RederivedNone(before, visits);
      ok, visited, report := true, 0, NOTHING;
      var cursor, more := START, true;
      while more
        invariant Unlocked(visits, visited) && cursor == CursorAt(visits, visited)
        invariant requests == Written(dryRun, before, visits, visited)
        invariant Reports(report, Taken(dryRun, before, repairs), visits, visited)
        invariant !more ==> visited == |visits|
        decreases |visits| - visited, more
      {
        ok, report, cursor, more, visited :=
          StepPage(dryRun, batchSize, repairs, highWater, cursor, report, before, visits, visited);
        if !ok {
          return;
        }
      }
    }

    /** The page query: the next visits, as many as the batch holds. */
    method Fetch(
      cursor: Key, highWater: Key, limit: nat, ghost before: seq<Row>, ghost visits: seq<Payload>, ghost visited: nat)
      returns (page: seq<Payload>)
      requires SortedByKey(payloads) && DistinctPayloads(payloads) && SameIdsAs(before, requests)
      requires visits == Matching(payloads, |payloads|, before, START, highWater) && visited <= |visits|
      requires cursor == CursorAt(visits, visited)
      ensures visited + |page| <= |visits| && page == visits[visited..visited + |page|]
      ensures |page| == if limit < |visits| - visited then limit else |visits| - visited
    {
      PageFollows(payloads, before, requests, visits, visited, highWater, limit);
      page := Page(payloads, requests, cursor, highWater, limit);
    }

    /** One round of the walk; `more` says whether another page may follow. */
    method StepPage(
      dryRun: bool, batchSize: nat, repairs: seq<Repair>, highWater: Key, cursor: Key, sofar: Report,
      ghost before: seq<Row>, ghost visits: seq<Payload>, ghost visited: nat)
      returns (ok: bool, report: Report, next: Key, more: bool, ghost reached: nat)
      requires SortedByKey(payloads) && DistinctPayloads(payloads) && DistinctIds(before) && batchSize > 0
      requires visits == Matching(payloads, |payloads|, before, START, highWater)
      requires DistinctPayloads(visits) && Joined(visits, before)
      requires Unlocked(visits, visited) && cursor == CursorAt(visits, visited)
      requires requests == Written(dryRun, before, visits, visited)
      requires Reports(sofar, Taken(dryRun, before, repairs), visits, visited)
      modifies this`requests
      ensures Unlocked(visits, reached) && visited <= reached && requests == Written(dryRun, before, visits, reached)
      ensures ok ==> Reports(report, Taken(dryRun, before, repairs), visits, reached) && next == CursorAt(visits, reached)
      ensures ok ==> if more then reached > visited else reached == |visits|
      ensures !ok ==> reached == visited
      ensures !ok ==> exists k :: visited <= k < |visits| && k < visited + batchSize && visits[k].reading.Locked?
    {
      hide Reports, Taken, Joined, DistinctIds, DistinctPayloads, SortedByKey;
      var page := Fetch(cursor, highWater, batchSize, before, visits, visited);
      ok, report, next, more, reached := true, sofar, cursor, false, visited;
      if |page| > 0 {
        ok, report, reached := DoPage(dryRun, page, repairs, sofar, before, visits, visited);
        next := KeyOf(page[|page| - 1]);
        more := |page| >= batchSize;
      }
    }

    /** One page: read it, then write its updates together. */
    method DoPage(
      dryRun: bool, page: seq<Payload>, repairs: seq<Repair>, sofar: Report,
      ghost before: seq<Row>, ghost visits: seq<Payload>, ghost visited: nat)
      returns (ok: bool, report: Report, ghost reached: nat)
      requires DistinctIds(before) && DistinctPayloads(visits) && Joined(visits, before)
      requires visited + |page| <= |visits| && page == visits[visited..visited + |page|]
      requires requests == Written(dryRun, before, visits, visited)
      requires Unlocked(visits, visited)
      requires Reports(sofar, Taken(dryRun, before, repairs), visits, visited)
      modifies this`requests
      ensures reached == (if ok then visited + |page| else visited) && Unlocked(visits, reached)
      ensures ok ==> Reports(report, Taken(dryRun, before, repairs), visits, reached)
      ensures requests == Written(dryRun, before, visits, reached)
      ensures !ok ==> exists k :: visited <= k < visited + |page| && visits[k].reading.Locked?
    {
      var pending;
      ghost var stopped;
      ok, pending, report, stopped := ReadPage(dryRun, page, repairs, sofar, before, visits, visited);
      reached := visited;
      if ok {
        reached := visited + |page|;
        ApplyBatch(dryRun, pending, before, visits, reached);
      } else {
        assert visits[visited + stopped] == page[stopped];
      }
    }

    /** Decode one page and decide its updates, without writing; the writes come together, at its end. */
    method ReadPage(
      dryRun: bool, page: seq<Payload>, repairs: seq<Repair>, sofar: Report,
      ghost before: seq<Row>, ghost visits: seq<Payload>, ghost visited: nat)
      returns (ok: bool, pending: seq<Update>, report: Report, ghost stopped: nat)
      requires DistinctIds(before) && DistinctPayloads(visits) && Joined(visits, before)
      requires visited + |page| <= |visits| && page == visits[visited..visited + |page|]
      requires requests == Written(dryRun, before, visits, visited)
      requires Unlocked(visits, visited)
      requires Reports(sofar, Taken(dryRun, before, repairs), visits, visited)
      ensures ok ==> Unlocked(visits, visited + |page|)
      ensures ok ==> Reports(report, Taken(dryRun, before, repairs), visits, visited + |page|)
      ensures ok && !dryRun ==> Decides(requests, pending, before, visits, visited + |page|)
      ensures !ok ==> stopped < |page| && page[stopped].reading.Locked?
    {
      DecidesNone(dryRun, requests, before, visits, visited);
      hide Decides, Reports, Written, Taken, Unlocked, Joined, DistinctIds, DistinctPayloads;
      ok, pending, report, stopped := true, [], sofar, 0;
      ghost var rows := Taken(dryRun, before, repairs);
      for i := 0 to |page|
        invariant Unlocked(visits, visited + i)
        invariant Reports(report, rows, visits, visited + i)
        invariant !dryRun ==> Decides(requests, pending, before, visits, visited + i)
      {
        var p := page[i];
        assert p == visits[visited + i];
        if p.reading.Locked? {
          return false, pending, report, i;
        }
        UnlockedNext(visits, visited + i);
        report, pending := ReadOne(dryRun, p, repairs, report, pending, before, visits, visited, visited + i);
      }
    }

    /** One payload that can be read: count it, and decide its update against the row as it stands. */
    method ReadOne(
      dryRun: bool, p: Payload, repairs: seq<Repair>, sofar: Report, decided: seq<Update>,
      ghost before: seq<Row>, ghost visits: seq<Payload>, ghost visited: nat, ghost n: nat)
      returns (report: Report, pending: seq<Update>)
      requires DistinctIds(before) && DistinctPayloads(visits) && Joined(visits, before)
      requires visited <= n < |visits| && visits[n] == p
      requires requests == Written(dryRun, before, visits, visited)
      requires Reports(sofar, Taken(dryRun, before, repairs), visits, n)
      requires !dryRun ==> Decides(requests, decided, before, visits, n)
      ensures Reports(report, Taken(dryRun, before, repairs), visits, n + 1)
      ensures !dryRun ==> Decides(requests, pending, before, visits, n + 1)
    {
      ghost var k := StoredRow(before, requests, visits, visited, n, p, repairs, dryRun);
      var stored := requests[Find(requests, |requests|, p.id)];
      var current := if dryRun then stored.(project := Looked(repairs, |repairs|, stored.project)) else stored;
      NoteStep(sofar, Taken(dryRun, before, repairs), visits, n, p, k);
      report := Noted(sofar, current, p.reading);
      pending := Pended(decided, current, p.reading);
      if !dryRun {
        PendStep(requests, decided, before, visits, n, p, k);
      }
    }

    method ApplyBatch(
      dryRun: bool, updates: seq<Update>, ghost before: seq<Row>, ghost visits: seq<Payload>, ghost n: nat)
      requires n <= |visits|
      requires if dryRun then requests == before else Decides(requests, updates, before, visits, n)
      modifies this`requests
      ensures requests == Written(dryRun, before, visits, n)
    {
      if dryRun {
        return;
      }
      for k := 0 to |updates|
        invariant requests == AllAssigned(old(requests), updates, k)
      {
        requests := Assigned(requests, updates[k]);
      }
    }

    method RunPassC(dryRun: bool, values: seq<string>, derived: set<string>, claimed: map<Option<string>, nat>, repairs: seq<Repair>)
      returns (nulled: nat)
      modifies this`requests
      ensures requests == if dryRun then old(requests) else RowsNulled(old(requests), derived, |JUNK|)
      ensures nulled == if dryRun then DryNulled(old(requests), values, |values|, repairs, claimed)
                                  else JunkRows(old(requests), |old(requests)|, derived, |JUNK|)
    {
      nulled := 0;
      if dryRun {
        for k := 0 to |values|
          invariant requests == old(requests) && nulled == DryNulled(old(requests), values, k, repairs, claimed)
        {
          var postB := Looked(repairs, |repairs|, Some(values[k]));
          if IsJunk(postB) {
            var total := Count(requests, |requests|, values[k]);
            nulled := nulled + Excess(total, if postB in claimed then claimed[postB] else 0);
          }
        }
        return;
      }
      NothingNulled(requests, derived);
      for j := 0 to |JUNK|
        invariant requests == RowsNulled(old(requests), derived, j)
        invariant nulled == JunkRows(old(requests), |old(requests)|, derived, j)
      {
        NullStep(old(requests), derived, j);
        NullCount(old(requests), |old(requests)|, derived, j);
        nulled := nulled + Unclaimed(requests, |requests|, derived, JUNK[j]);
        requests := Nulled(requests, derived, JUNK[j]);
      }
    }

    /**
     * The whole script. `values` and `again` are the distinct projects as the two queries deliver them. When pass A
     * stops, pass C is not run.
     */
    method Run(dryRun: bool, batchSize: nat, values: seq<string>, again: seq<string>)
      returns (ok: bool, repaired: nat, report: Report, nulled: nat, ghost visited: nat)
      requires Valid() && batchSize > 0
      modifies this
      ensures ghost var rows, repairs, visits := old(requests), Repairs(Sanitize, values, |values|), old(Visits());
              ghost var live := RowsRepaired(rows, repairs, |repairs|);
              && Unlocked(visits, visited)
              && (ok ==> visited == |visits|)
              && (!ok ==> !Unlocked(visits, |visits|))
              && requests == (if dryRun then rows
                              else if ok then RowsNulled(RowsRederived(live, visits, visited), report.derived, |JUNK|)
                              else RowsRederived(live, visits, visited))
              && repaired == (if dryRun then RowsMatching(rows, repairs, |repairs|) else RowsHit(rows, repairs, |repairs|))
              && (ok ==> Reports(report, if dryRun then RowsLooked(rows, repairs) else live, visits, visited))
              && (ok && dryRun ==> nulled == DryNulled(rows, again, |again|, repairs, report.claimed))
              && (ok && !dryRun ==> nulled == JunkRows(RowsRederived(live, visits, visited), |rows|, report.derived, |JUNK|))
    {
      ghost var before := requests;
      var repairs;
      nulled := 0;
      repairs, repaired := RunPassB(dryRun, values);
      if started > 0 {
        MatchingSameIds(payloads, |payloads|, before, requests, START, KeyOf(payloads[started - 1]));
      }
      ok, visited, report := RunPassA(dryRun, batchSize, repairs);
      if ok {
        nulled := RunPassC(dryRun, again, report.derived, report.claimed, repairs);
      }
    }
  }

  lemma RederivedNone(rows: seq<Row>, visits: seq<Payload>)
    ensures RowsRederived(rows, visits, 0) == rows
  {
  }

  lemma {:induction false} AllAssignedPrefix(rows: seq<Row>, updates: seq<Update>, n: nat)
    requires n < |updates|
    ensures AllAssigned(rows, updates[..|updates| - 1], n) == AllAssigned(rows, updates, n)
  {
    if n > 0 {
      AllAssignedPrefix(rows, updates, n - 1);
    }
  }

  lemma {:induction false} SameIds(a: seq<Row>, b: seq<Row>, n: nat, id: string)
    requires SameIdsAs(a, b) && n <= |a|
    ensures Find(a, n, id) == Find(b, n, id)
  {
    if n > 0 {
      SameIds(a, b, n - 1, id);
    }
  }

  lemma {:induction false} MatchingSameIds(payloads: seq<Payload>, n: nat, a: seq<Row>, b: seq<Row>, cursor: Key, highWater: Key)
    requires n <= |payloads| && SameIdsAs(a, b)
    ensures Matching(payloads, n, a, cursor, highWater) == Matching(payloads, n, b, cursor, highWater)
  {
    if n > 0 {
      SameIds(a, b, |a|, payloads[n - 1].id);
      MatchingSameIds(payloads, n - 1, a, b, cursor, highWater);
    }
  }

  function CursorAt(visits: seq<Payload>, n: nat): Key
    requires n <= |visits|
  {
    if n == 0 then START else KeyOf(visits[n - 1])
  }

  lemma VisitsUsable(payloads: seq<Payload>, rows: seq<Row>, highWater: Key)
    requires SortedByKey(payloads) && DistinctPayloads(payloads)
    ensures var visits := Matching(payloads, |payloads|, rows, START, highWater);
            DistinctPayloads(visits) && Joined(visits, rows)
  {
    MatchingFacts(payloads, |payloads|, rows, START, highWater);
  }

  /** The page query. */
  function Page(payloads: seq<Payload>, rows: seq<Row>, cursor: Key, highWater: Key, limit: nat): seq<Payload> {
    var matching := Matching(payloads, |payloads|, rows, cursor, highWater);
    matching[..if limit < |matching| then limit else |matching|]
  }

  /** The query under the cursor delivers the visits that are left, whatever the passes wrote meanwhile. */
  lemma PageFollows(
    payloads: seq<Payload>, before: seq<Row>, requests: seq<Row>, visits: seq<Payload>, visited: nat, highWater: Key,
    limit: nat)
    requires SortedByKey(payloads) && DistinctPayloads(payloads) && SameIdsAs(before, requests)
    requires visits == Matching(payloads, |payloads|, before, START, highWater) && visited <= |visits|
    ensures var page := Page(payloads, requests, CursorAt(visits, visited), highWater, limit);
            && visited + |page| <= |visits| && page == visits[visited..visited + |page|]
            && |page| == if limit < |visits| - visited then limit else |visits| - visited
  {
    MatchingSameIds(payloads, |payloads|, before, requests, CursorAt(visits, visited), highWater);
    MatchingFacts(payloads, |payloads|, before, START, highWater);
    if visited > 0 {
      NextPage(payloads, |payloads|, before, highWater, visits, visited);
    }
  }

  /** The row a visit reads is, in a dry run after the lookup, the row pass B left. */
  lemma StoredRow(
    before: seq<Row>, requests: seq<Row>, visits: seq<Payload>, visited: nat, n: nat, p: Payload,
    repairs: seq<Repair>, dryRun: bool)
    returns (k: nat)
    requires DistinctIds(before) && DistinctPayloads(visits) && Joined(visits, before)
    requires visited <= n < |visits| && visits[n] == p
    requires requests == Written(dryRun, before, visits, visited)
    ensures k < |before| && before[k].id == p.id
    ensures Find(requests, |requests|, p.id) == k == Find(Taken(dryRun, before, repairs), |before|, p.id)
    ensures Taken(dryRun, before, repairs)[k]
         == if dryRun then requests[k].(project := Looked(repairs, |repairs|, requests[k].project)) else requests[k]
  {
    k := Find(before, |before|, p.id);
    FindFinds(before, |before|, p.id);
    VisitAt(visits, visited, p.id, n);
    FindAt(requests, |requests|, k);
    FindAt(Taken(dryRun, before, repairs), |before|, k);
  }

  // Pass C's updates, one junk value at a time

  function Unclaimed(rows: seq<Row>, n: nat, derived: set<string>, value: string): nat
    requires n <= |rows|
  {
    if n == 0 then 0
    else Unclaimed(rows, n - 1, derived, value)
         + if Is(rows[n - 1].project, value) && rows[n - 1].id !in derived then 1 else 0
  }

  function Nulled(rows: seq<Row>, derived: set<string>, value: string): seq<Row> {
    seq(|rows|, i requires 0 <= i < |rows| =>
      if Is(rows[i].project, value) && rows[i].id !in derived then rows[i].(project := None) else rows[i])
  }

  lemma NothingNulled(rows: seq<Row>, derived: set<string>)
    ensures RowsNulled(rows, derived, 0) == rows && JunkRows(rows, |rows|, derived, 0) == 0
  {
    NoneYet(rows, |rows|, derived);
  }

  lemma {:induction false} NoneYet(rows: seq<Row>, n: nat, derived: set<string>)
    requires n <= |rows|
    ensures JunkRows(rows, n, derived, 0) == 0
  {
    if n > 0 {
      NoneYet(rows, n - 1, derived);
    }
  }

  lemma JunkDistinct()
    ensures forall i, j :: 0 <= i < j < |JUNK| ==> JUNK[i] != JUNK[j]
  {
    assert |JUNK[0]| == 7 && |JUNK[1]| == 6 && |JUNK[2]| == 8 && |JUNK[3]| == 6 && |JUNK[4]| == 7 && |JUNK[5]| == 28;
    assert JUNK[0][0] == '.' && JUNK[4][0] == 'H' && JUNK[1][0] == '.' && JUNK[3][0] == 'S';
  }

  lemma NullStep(rows: seq<Row>, derived: set<string>, j: nat)
    requires j < |JUNK|
    ensures RowsNulled(rows, derived, j + 1) == Nulled(RowsNulled(rows, derived, j), derived, JUNK[j])
  {
    forall i | 0 <= i < |rows|
      ensures JunkAmong(j + 1, rows[i].project) <==> JunkAmong(j, rows[i].project) || Is(rows[i].project, JUNK[j])
    {
    }
  }

  lemma {:induction false} NullCount(rows: seq<Row>, n: nat, derived: set<string>, j: nat)
    requires n <= |rows| && j < |JUNK|
    ensures JunkRows(rows, n, derived, j + 1)
         == JunkRows(rows, n, derived, j) + Unclaimed(RowsNulled(rows, derived, j), n, derived, JUNK[j])
  {
    if n > 0 {
      NullCount(rows, n - 1, derived, j);
      JunkDistinct();
      assert JunkAmong(j + 1, rows[n - 1].project) <==> JunkAmong(j, rows[n - 1].project) || Is(rows[n - 1].project, JUNK[j]);
    }
  }
}
