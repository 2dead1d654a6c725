/** The three passes of scripts/backfill-project-names.ts, live and dry-run, as the script runs them. */
module BackfillPasses {
  import opened Wrappers
  import opened Texts

  // The tables

  datatype Row = Row(id: string, project: Option<string>, source: Option<string>)

  datatype Failure = Decrypt | EnvelopeJson | BodyBase64 | BodyJson | Extractor

  /** What decoding a payload and re-deriving its project comes to. `Locked`: encrypted, and there is no key. */
  datatype Reading = Locked | Failed(why: Failure) | NoBody | Extracted(project: Option<string>, source: Option<string>)

  datatype Payload = Payload(id: string, timestamp: Option<int>, reading: Reading)

  datatype Key = Key(ts: int, id: string)

  const NULL_TS_SENTINEL := -1
  const START := Key(-9007199254740991, "")
  const INHERITED := "session_inherited"
  const JUNK := [".claude", ".codex", "projects", "System", "Harness", "User's Current Configuration"]

  function KeyOf(p: Payload): Key {
    Key(if p.timestamp.Some? then p.timestamp.value else NULL_TS_SENTINEL, p.id)
  }

  predicate Less(a: Key, b: Key) {
    a.ts < b.ts || (a.ts == b.ts && TextLess(a.id, b.id))
  }

  predicate AtMost(a: Key, b: Key) {
    Less(a, b) || a == b
  }

  lemma LessOrders(a: Key, b: Key, c: Key)
    ensures Less(a, b) && Less(b, c) ==> Less(a, c)
    ensures Less(a, b) ==> !Less(b, a)
    ensures !Less(a, a)
  {
    TextLessOrders(a.id, b.id, c.id);
  }

  ghost predicate SortedByKey(payloads: seq<Payload>) {
    forall i, j :: 0 <= i < j < |payloads| ==> Less(KeyOf(payloads[i]), KeyOf(payloads[j]))
  }

  ghost predicate DistinctIds(rows: seq<Row>) {
    forall i, j :: 0 <= i < j < |rows| ==> rows[i].id != rows[j].id
  }

  ghost predicate DistinctPayloads(payloads: seq<Payload>) {
    forall i, j :: 0 <= i < j < |payloads| ==> payloads[i].id != payloads[j].id
  }

  /** Where the row with this id is, among the first `n`; -1 if it is not there. */
  function Find(rows: seq<Row>, n: nat, id: string): (k: int)
    requires n <= |rows|
    ensures -1 <= k < n
  {
    if n == 0 then -1
    else if rows[n - 1].id == id then n - 1
    else Find(rows, n - 1, id)
  }

  lemma {:induction false} FindFinds(rows: seq<Row>, n: nat, id: string)
    requires n <= |rows|
    ensures Find(rows, n, id) >= 0 ==> rows[Find(rows, n, id)].id == id
  {
    if n > 0 && rows[n - 1].id != id {
      FindFinds(rows, n - 1, id);
    }
  }

  lemma {:induction false} FindAt(rows: seq<Row>, n: nat, k: nat)
    requires k < n <= |rows| && DistinctIds(rows)
    ensures Find(rows, n, rows[k].id) == k
  {
    if k < n - 1 {
      FindAt(rows, n - 1, k);
    }
  }

  predicate Is(project: Option<string>, value: string) {
    project.Some? && project.value == value
  }

  function Count(rows: seq<Row>, n: nat, project: string): nat
    requires n <= |rows|
  {
    if n == 0 then 0 else Count(rows, n - 1, project) + if Is(rows[n - 1].project, project) then 1 else 0
  }

  // Pass B

  datatype Repair = Repair(original: string, cleaned: Option<string>)

  /** The distinct projects, in whatever order the query delivers them. */
  ghost predicate IsDistinctList(rows: seq<Row>, values: seq<string>) {
    && (forall i, j :: 0 <= i < j < |values| ==> values[i] != values[j])
    && (forall i :: 0 <= i < |rows| && rows[i].project.Some? ==> rows[i].project.value in values)
    && forall k :: 0 <= k < |values| ==> exists i :: 0 <= i < |rows| && Is(rows[i].project, values[k])
  }

  /** The repairs `clean` calls for among the first `n` values. */
  function Repairs(clean: string -> Option<string>, values: seq<string>, n: nat): seq<Repair>
    requires n <= |values|
  {
    if n == 0 then []
    else if Is(clean(values[n - 1]), values[n - 1]) then Repairs(clean, values, n - 1)
    else Repairs(clean, values, n - 1) + [Repair(values[n - 1], clean(values[n - 1]))]
  }

  /** A project after the first `n` updates, each of which rewrites one value to another. */
  function Repaired(repairs: seq<Repair>, n: nat, project: Option<string>): Option<string>
    requires n <= |repairs|
  {
    if n == 0 then project
    else
      var before := Repaired(repairs, n - 1, project);
      if Is(before, repairs[n - 1].original) then repairs[n - 1].cleaned else before
  }

  function RowsRepaired(rows: seq<Row>, repairs: seq<Repair>, n: nat): seq<Row>
    requires n <= |repairs|
  {
    seq(|rows|, i requires 0 <= i < |rows| => rows[i].(project := Repaired(repairs, n, rows[i].project)))
  }

  function RowsHit(rows: seq<Row>, repairs: seq<Repair>, n: nat): nat
    requires n <= |repairs|
  {
    if n == 0 then 0
    else RowsHit(rows, repairs, n - 1)
         + Count(RowsRepaired(rows, repairs, n - 1), |rows|, repairs[n - 1].original)
  }

  function RowsMatching(rows: seq<Row>, repairs: seq<Repair>, n: nat): nat
    requires n <= |repairs|
  {
    if n == 0 then 0
    else RowsMatching(rows, repairs, n - 1) + Count(rows, |rows|, repairs[n - 1].original)
  }

  /** What a dry run takes a project to be after pass B: one lookup in the repairs. */
  function Looked(repairs: seq<Repair>, n: nat, project: Option<string>): Option<string>
    requires n <= |repairs|
  {
    if n == 0 then project
    else if Is(project, repairs[n - 1].original) then repairs[n - 1].cleaned
    else Looked(repairs, n - 1, project)
  }

  function RowsLooked(rows: seq<Row>, repairs: seq<Repair>): seq<Row> {
    seq(|rows|, i requires 0 <= i < |rows| => rows[i].(project := Looked(repairs, |repairs|, rows[i].project)))
  }

  // Pass A

  datatype Counters = Counters(examined: nat, changed: nat, same: nat, skippedNoBody: nat, failed: multiset<Failure>)

  const ZERO := Counters(0, 0, 0, 0, multiset{})

  /** Re-derivation found nothing, but the project was inherited from a session that no longer exists. */
  predicate Inherited(reading: Reading, source: Option<string>) {
    reading.Extracted? && reading.project.None? && source == Some(INHERITED)
  }

  function RederivedRow(row: Row, reading: Reading): Row {
    if reading.Extracted? && !Inherited(reading, row.source) && reading.project != row.project
    then row.(project := reading.project, source := reading.source)
    else row
  }

  function Tallied(c: Counters, row: Row, reading: Reading): Counters {
    var d := c.(examined := c.examined + 1);
    match reading
    case Locked => d
    case Failed(why) => d.(failed := d.failed + multiset{why})
    case NoBody => d.(skippedNoBody := d.skippedNoBody + 1)
    case Extracted(_, _) =>
      if RederivedRow(row, reading) != row then d.(changed := d.changed + 1) else d.(same := d.same + 1)
  }

  predicate Admits(p: Payload, rows: seq<Row>, cursor: Key, highWater: Key) {
    Less(cursor, KeyOf(p)) && AtMost(KeyOf(p), highWater) && Find(rows, |rows|, p.id) >= 0
  }

  /** The page query without its limit: joined payloads above the cursor and not above the high-water key. */
  function Matching(payloads: seq<Payload>, n: nat, rows: seq<Row>, cursor: Key, highWater: Key): seq<Payload>
    requires n <= |payloads|
  {
    if n == 0 then []
    else
      Matching(payloads, n - 1, rows, cursor, highWater)
      + if Admits(payloads[n - 1], rows, cursor, highWater) then [payloads[n - 1]] else []
  }

  /** Which of the first `n` visits is to this id; -1 if none is. */
  function VisitTo(visits: seq<Payload>, n: nat, id: string): (k: int)
    requires n <= |visits|
    ensures -1 <= k < n
  {
    if n == 0 then -1
    else if visits[n - 1].id == id then n - 1
    else VisitTo(visits, n - 1, id)
  }

  function RowsRederived(rows: seq<Row>, visits: seq<Payload>, n: nat): seq<Row>
    requires n <= |visits|
  {
    seq(|rows|, i requires 0 <= i < |rows| =>
      var k := VisitTo(visits, n, rows[i].id);
      if k < 0 then rows[i] else RederivedRow(rows[i], visits[k].reading))
  }

  /** The ids whose payload re-derived, changed or not. */
  function DerivedIds(visits: seq<Payload>, n: nat): set<string>
    requires n <= |visits|
  {
    if n == 0 then {}
    else DerivedIds(visits, n - 1) + if visits[n - 1].reading.Extracted? then {visits[n - 1].id} else {}
  }

  ghost predicate Joined(visits: seq<Payload>, rows: seq<Row>) {
    forall k :: 0 <= k < |visits| ==> Find(rows, |rows|, visits[k].id) >= 0
  }

  function Tally(rows: seq<Row>, visits: seq<Payload>, n: nat): Counters
    requires n <= |visits|
  {
    if n == 0 then ZERO
    else
      var i := Find(rows, |rows|, visits[n - 1].id);
      if i < 0 then Tally(rows, visits, n - 1)
      else Tallied(Tally(rows, visits, n - 1), rows[i], visits[n - 1].reading)
  }

  /** The payload claims its row for pass C's subtraction in a dry run. */
  predicate Claims(row: Row, reading: Reading) {
    reading.Extracted? && !Inherited(reading, row.source)
  }

  /** How many re-derived rows carried each project after pass B. */
  function ByValue(rows: seq<Row>, visits: seq<Payload>, n: nat, project: Option<string>): nat
    requires n <= |visits|
  {
    if n == 0 then 0
    else
      var i := Find(rows, |rows|, visits[n - 1].id);
      ByValue(rows, visits, n - 1, project)
      + if i >= 0 && Claims(rows[i], visits[n - 1].reading) && rows[i].project == project then 1 else 0
  }

  datatype Update = Update(id: string, project: Option<string>, source: Option<string>)

  function Assigned(rows: seq<Row>, u: Update): seq<Row> {
    seq(|rows|, i requires 0 <= i < |rows| => if rows[i].id == u.id then Row(u.id, u.project, u.source) else rows[i])
  }

  function AllAssigned(rows: seq<Row>, updates: seq<Update>, n: nat): seq<Row>
    requires n <= |updates|
  {
    if n == 0 then rows else Assigned(AllAssigned(rows, updates, n - 1), updates[n - 1])
  }

  // Pass C

  predicate JunkAmong(n: nat, project: Option<string>)
    requires n <= |JUNK|
  {
    exists k :: 0 <= k < n && Is(project, JUNK[k])
  }

  predicate IsJunk(project: Option<string>) {
    JunkAmong(|JUNK|, project)
  }

  function RowsNulled(rows: seq<Row>, derived: set<string>, n: nat): seq<Row>
    requires n <= |JUNK|
  {
    seq(|rows|, i requires 0 <= i < |rows| =>
      if JunkAmong(n, rows[i].project) && rows[i].id !in derived then rows[i].(project := None) else rows[i])
  }

  /** Rows, among the first `n`, that hold junk and were not re-derived. */
  function JunkRows(rows: seq<Row>, n: nat, derived: set<string>, junk: nat): nat
    requires n <= |rows| && junk <= |JUNK|
  {
    if n == 0 then 0
    else JunkRows(rows, n - 1, derived, junk)
         + if JunkAmong(junk, rows[n - 1].project) && rows[n - 1].id !in derived then 1 else 0
  }

  function Excess(total: nat, claimed: nat): nat {
    if total > claimed then total - claimed else 0
  }

  /** The dry run's estimate, over the distinct original projects. */
  function DryNulled(rows: seq<Row>, values: seq<string>, n: nat, repairs: seq<Repair>, claimed: map<Option<string>, nat>): nat
    requires n <= |values|
  {
    if n == 0 then 0
    else
      var postB := Looked(repairs, |repairs|, Some(values[n - 1]));
      DryNulled(rows, values, n - 1, repairs, claimed)
      + if IsJunk(postB) then Excess(Count(rows, |rows|, values[n - 1]), if postB in claimed then claimed[postB] else 0) else 0
  }

  // Lemmas the loops need

  lemma RepairStep(rows: seq<Row>, repairs: seq<Repair>, n: nat)
    requires n < |repairs|
    ensures RowsRepaired(rows, repairs, n + 1)
         == seq(|rows|, i requires 0 <= i < |rows| =>
              var r := RowsRepaired(rows, repairs, n)[i];
              if Is(r.project, repairs[n].original) then r.(project := repairs[n].cleaned) else r)
  {
  }

  lemma {:induction false} MatchingFacts(payloads: seq<Payload>, n: nat, rows: seq<Row>, cursor: Key, highWater: Key)
    requires n <= |payloads| && SortedByKey(payloads) && DistinctPayloads(payloads)
    ensures var m := Matching(payloads, n, rows, cursor, highWater);
            && SortedByKey(m) && DistinctPayloads(m) && Joined(m, rows)
            && forall k :: 0 <= k < |m| ==> m[k] in payloads[..n] && Less(cursor, KeyOf(m[k]))
  {
    if n > 0 {
      MatchingFacts(payloads, n - 1, rows, cursor, highWater);
      var before := Matching(payloads, n - 1, rows, cursor, highWater);
      forall k | 0 <= k < |before|
        ensures Less(KeyOf(before[k]), KeyOf(payloads[n - 1])) && before[k].id != payloads[n - 1].id
      {
        var i :| 0 <= i < n - 1 && payloads[i] == before[k];
      }
    }
  }

  lemma CursorSplits(all: seq<Payload>, k: nat, m: nat)
    requires SortedByKey(all) && 0 < k <= |all| && m < |all|
    ensures Less(KeyOf(all[k - 1]), KeyOf(all[m])) <==> m >= k
  {
    LessOrders(KeyOf(all[m]), KeyOf(all[k - 1]), KeyOf(all[m]));
  }

  /** With the cursor on the `k`-th match, the query delivers exactly the matches after it. */
  lemma {:induction false} NextPage(payloads: seq<Payload>, n: nat, rows: seq<Row>, highWater: Key, all: seq<Payload>, k: nat)
    requires n <= |payloads| && SortedByKey(all) && 0 < k <= |all| && Less(START, KeyOf(all[k - 1]))
    requires Matching(payloads, n, rows, START, highWater) <= all
    ensures var m := Matching(payloads, n, rows, START, highWater);
            Matching(payloads, n, rows, KeyOf(all[k - 1]), highWater) == if |m| < k then [] else m[k..]
  {
    if n > 0 {
      var cursor := KeyOf(all[k - 1]);
      var p := payloads[n - 1];
      NextPage(payloads, n - 1, rows, highWater, all, k);
      LessOrders(START, cursor, KeyOf(p));
      if Admits(p, rows, START, highWater) {
        var m := |Matching(payloads, n - 1, rows, START, highWater)|;
        assert all[m] == p;
        CursorSplits(all, k, m);
      }
    }
  }
}
