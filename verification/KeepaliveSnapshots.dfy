/**
 * The run-length sampler of apps/server/src/cache-keepalive-snapshot-sampler.ts: unchanged states are held back, the
 * change is written first, and the newest held row after it.
 */
module KeepaliveSnapshots {
  import opened Wrappers

  /** The gauges and counters of one row; `sameState` compares them all. */
  datatype Gauges = Gauges(
    warmSessions: nat, promotedSessions: nat, totalBytes: nat, keepalivesSent: nat, hits: nat, misses: nat, failures: nat,
    spentUsd: real, savedUsd: real, warmResumes: nat, savedUsd5m: real)

  datatype Row = Row(at: int, state: Gauges)

  datatype Value = Value(lastWritten: Option<Row>, held: Option<Row>, stored: seq<Row>)

  function Holds(v: Value, row: Row): Value {
    v.(held := Some(row))
  }

  predicate Unchanged(v: Value, row: Row) {
    v.lastWritten.Some? && v.lastWritten.value.state == row.state
  }

  function WriteNew(v: Value, row: Row): Value {
    v.(lastWritten := Some(row), stored := v.stored + [row])
  }

  function WriteHeld(v: Value, succeeds: bool): Value {
    Value(v.lastWritten, None, if v.held.Some? && succeeds then v.stored + [v.held.value] else v.stored)
  }

  /** One tick; the two flags say whether each insert succeeds. */
  function Ticked(v: Value, row: Row, newOk: bool, heldOk: bool): Value {
    if Unchanged(v, row) then Holds(v, row)
    else if !newOk then v
    else WriteHeld(WriteNew(v, row), heldOk)
  }

  /** Where the newest row no later than `t` is, among the first `n`; -1 if there is none. */
  function Newest(rows: seq<Row>, n: nat, t: int): (k: int)
    requires n <= |rows|
    ensures -1 <= k < n
  {
    if n == 0 then -1
    else
      var k := Newest(rows, n - 1, t);
      if rows[n - 1].at <= t && (k < 0 || rows[k].at < rows[n - 1].at) then n - 1 else k
  }

  /** Carrying the newest stored row forward to `t` gives this state. */
  predicate Decodes(rows: seq<Row>, t: int, state: Gauges) {
    var k := Newest(rows, |rows|, t);
    k >= 0 && rows[k].state == state
  }

  /** A restart seeds from the newest row by time. */
  function Seeded(stored: seq<Row>, horizon: int): Value {
    var k := Newest(stored, |stored|, horizon);
    Value(if k < 0 then None else Some(stored[k]), None, stored)
  }

  class Sampler {
    var lastWritten: Option<Row>
    var held: Option<Row>
    var stored: seq<Row>

    constructor (stored: seq<Row>, lastSnapshot: Option<Row>)
      ensures Memory() == Value(lastSnapshot, None, stored)
    {
      this.stored, lastWritten, held := stored, lastSnapshot, None;
    }

    function Memory(): Value
      reads this
    {
      Value(lastWritten, held, stored)
    }

    method Insert(row: Row, succeeds: bool)
      modifies this`stored
      ensures stored == if succeeds then old(stored) + [row] else old(stored)
    {
      if succeeds {
        stored := stored + [row];
      }
    }

    method Tick(row: Row, newOk: bool, heldOk: bool)
      modifies this
      ensures Memory() == Ticked(old(Memory()), row, newOk, heldOk)
    {
      if lastWritten.Some? && lastWritten.value.state == row.state {
        held := Some(row);
        return;
      }
      Insert(row, newOk);
      if !newOk {
        return;
      }
      lastWritten := Some(row);
      var pending := held;
      held := None;
      if pending.None? {
        return;
      }
      Insert(pending.value, heldOk);
    }
  }

  // Runs

  /** `Crash` dies right after the new row is stored, before the held one; either way the next boot seeds afresh. */
  datatype Action =
    | Tick(row: Row, newOk: bool, heldOk: bool)
    | Crash(row: Row)
    | Restart

  /** A tick, and whether its state was stored or held rather than lost with its insert. */
  datatype Seen = Seen(row: Row, kept: bool)

  datatype State = State(v: Value, seen: seq<Seen>, horizon: int)

  predicate Kept(v: Value, row: Row, newOk: bool) {
    Unchanged(v, row) || newOk
  }

  function Do(s: State, a: Action): State {
    match a
    case Tick(row, newOk, heldOk) =>
      State(Ticked(s.v, row, newOk, heldOk), s.seen + [Seen(row, Kept(s.v, row, newOk))], row.at)
    case Crash(row) =>
      if Unchanged(s.v, row) then State(Seeded(s.v.stored, row.at), s.seen + [Seen(row, true)], row.at)
      else State(Seeded(WriteNew(s.v, row).stored, row.at), s.seen + [Seen(row, true)], row.at)
    case Restart => s.(v := Seeded(s.v.stored, s.horizon))
  }

  function Run(s: State, actions: seq<Action>): State
    decreases |actions|
  {
    if actions == [] then s else Run(Do(s, actions[0]), actions[1..])
  }

  lemma {:induction false} RunMore(s: State, actions: seq<Action>, a: Action)
    ensures Run(s, actions + [a]) == Do(Run(s, actions), a)
    decreases |actions|
  {
    if actions == [] {
      assert actions + [a] == [a] && [a][1..] == [];
    } else {
      assert (actions + [a])[0] == actions[0] && (actions + [a])[1..] == actions[1..] + [a];
      RunMore(Do(s, actions[0]), actions[1..], a);
    }
  }

  /** The state of a tick is kept unless its own insert failed, which an unchanged state does not need. */
  lemma TickSeen(s: State, row: Row, newOk: bool, heldOk: bool)
    ensures Do(s, Tick(row, newOk, heldOk)).seen
         == s.seen + [Seen(row, newOk || (s.v.lastWritten.Some? && s.v.lastWritten.value.state == row.state))]
    ensures Do(s, Crash(row)).seen == s.seen + [Seen(row, true)] && Do(s, Restart).seen == s.seen
  {
  }

  /** Ticks come at strictly increasing times. */
  predicate InOrder(horizon: int, actions: seq<Action>)
    decreases |actions|
  {
    actions != [] ==>
      if actions[0].Restart? then InOrder(horizon, actions[1..])
      else horizon < actions[0].row.at && InOrder(actions[0].row.at, actions[1..])
  }

  predicate Initial(s: State) {
    s.v == Value(None, None, []) && s.seen == []
  }

  // What every run keeps

  predicate DistinctTimes(rows: seq<Row>) {
    forall i, j :: 0 <= i < j < |rows| ==> rows[i].at != rows[j].at
  }

  /** The last written row is stored, and is the newest by time. */
  ghost predicate Checkpoint(v: Value) {
    && (v.lastWritten.None? ==> v.stored == [] && v.held.None?)
    && (v.lastWritten.Some? ==>
          v.lastWritten.value in v.stored && forall k :: 0 <= k < |v.stored| ==> v.stored[k].at <= v.lastWritten.value.at)
    && DistinctTimes(v.stored)
  }

  /** A held row repeats the last written state, later. */
  predicate HeldOk(v: Value, horizon: int) {
    v.held.Some? ==>
      && v.lastWritten.Some? && v.held.value.state == v.lastWritten.value.state
      && v.lastWritten.value.at < v.held.value.at <= horizon
  }

  ghost predicate Inv(s: State) {
    && Checkpoint(s.v)
    && HeldOk(s.v, s.horizon)
    && (forall k :: 0 <= k < |s.v.stored| ==> s.v.stored[k].at <= s.horizon)
    && (forall k :: 0 <= k < |s.seen| ==> s.seen[k].row.at <= s.horizon)
    && forall k :: 0 <= k < |s.seen| && s.seen[k].kept ==>
         && Decodes(s.v.stored, s.seen[k].row.at, s.seen[k].row.state)
         && (s.v.lastWritten.Some? && s.seen[k].row.at >= s.v.lastWritten.value.at ==>
               s.seen[k].row.state == s.v.lastWritten.value.state)
  }

  lemma {:induction false} NewestIs(rows: seq<Row>, n: nat, t: int)
    requires n <= |rows|
    ensures var k := Newest(rows, n, t);
            && (k >= 0 ==> rows[k].at <= t)
            && forall i :: 0 <= i < n && rows[i].at <= t ==> k >= 0 && rows[i].at <= rows[k].at
  {
    if n > 0 {
      NewestIs(rows, n - 1, t);
    }
  }

  lemma {:induction false} NewestPrefix(rows: seq<Row>, more: seq<Row>, n: nat, t: int)
    requires n <= |rows| && rows <= more
    ensures Newest(more, n, t) == Newest(rows, n, t)
  {
    if n > 0 {
      NewestPrefix(rows, more, n - 1, t);
    }
  }

  /** A row later than `t` changes nothing at `t`; a row no later, with the decoded state, keeps it. */
  lemma DecodesMore(rows: seq<Row>, row: Row, t: int, state: Gauges)
    requires Decodes(rows, t, state) && (row.at > t || row.state == state)
    ensures Decodes(rows + [row], t, state)
  {
    NewestPrefix(rows, rows + [row], |rows|, t);
  }

  lemma DecodesLast(rows: seq<Row>, row: Row)
    requires forall k :: 0 <= k < |rows| ==> rows[k].at < row.at
    ensures Decodes(rows + [row], row.at, row.state)
  {
    NewestPrefix(rows, rows + [row], |rows|, row.at);
  }

  /** The newest row up to the horizon is the last written one. */
  lemma SeedIsLastWritten(v: Value, horizon: int)
    requires Checkpoint(v) && forall k :: 0 <= k < |v.stored| ==> v.stored[k].at <= horizon
    ensures Seeded(v.stored, horizon) == Value(v.lastWritten, None, v.stored)
  {
    NewestIs(v.stored, |v.stored|, horizon);
    if v.lastWritten.Some? {
      var k :| 0 <= k < |v.stored| && v.stored[k] == v.lastWritten.value;
      assert v.stored[k].at <= horizon;
      var m := Newest(v.stored, |v.stored|, horizon);
      assert v.stored[m].at == v.stored[k].at;
    }
  }

  /** Storing the new row. */
  lemma NewKeeps(s: State, row: Row)
    requires Inv(s) && s.horizon < row.at && !Unchanged(s.v, row)
    ensures var v := WriteNew(s.v, row);
            && Checkpoint(v) && Decodes(v.stored, row.at, row.state)
            && (forall k :: 0 <= k < |v.stored| ==> v.stored[k].at <= row.at)
            && forall k :: 0 <= k < |s.seen| && s.seen[k].kept ==> Decodes(v.stored, s.seen[k].row.at, s.seen[k].row.state)
  {
    DecodesLast(s.v.stored, row);
    assert WriteNew(s.v, row).stored[|s.v.stored|] == row;
    forall k | 0 <= k < |s.seen| && s.seen[k].kept
      ensures Decodes(s.v.stored + [row], s.seen[k].row.at, s.seen[k].row.state)
    {
      DecodesMore(s.v.stored, row, s.seen[k].row.at, s.seen[k].row.state);
    }
  }

  lemma HeldIsNew(s: State)
    requires Inv(s) && s.v.held.Some?
    ensures forall k :: 0 <= k < |s.v.stored| ==> s.v.stored[k].at != s.v.held.value.at
  {
  }

  lemma UnchangedKeeps(s: State, row: Row, newOk: bool, heldOk: bool)
    requires Inv(s) && s.horizon < row.at && Unchanged(s.v, row)
    ensures Inv(Do(s, Tick(row, newOk, heldOk)))
  {
    NewestIs(s.v.stored, |s.v.stored|, row.at);
    var w := s.v.lastWritten.value;
    var k :| 0 <= k < |s.v.stored| && s.v.stored[k] == w;
    var m := Newest(s.v.stored, |s.v.stored|, row.at);
    assert s.v.stored[k].at <= row.at && s.v.stored[m].at == w.at;
  }

  lemma HeldKeeps(s: State, row: Row, k: nat)
    requires Inv(s) && s.horizon < row.at && !Unchanged(s.v, row) && s.v.held.Some?
    requires var t := Do(s, Tick(row, true, true)); k < |t.seen| && t.seen[k].kept
    ensures var t := Do(s, Tick(row, true, true)); Decodes(t.v.stored, t.seen[k].row.at, t.seen[k].row.state)
  {
    NewKeeps(s, row);
    var v, h := WriteNew(s.v, row), s.v.held.value;
    if k < |s.seen| {
      assert Decodes(v.stored, s.seen[k].row.at, s.seen[k].row.state);
      DecodesMore(v.stored, h, s.seen[k].row.at, s.seen[k].row.state);
    } else {
      HeldBefore(v.stored, h, row);
    }
  }

  lemma TickKeeps(s: State, row: Row, newOk: bool, heldOk: bool)
    requires Inv(s) && s.horizon < row.at
    ensures Inv(Do(s, Tick(row, newOk, heldOk)))
  {
    hide Decodes;
    if Unchanged(s.v, row) {
      UnchangedKeeps(s, row, newOk, heldOk);
    } else if newOk {
      NewKeeps(s, row);
      if s.v.held.Some? && heldOk {
        HeldIsNew(s);
        var t := Do(s, Tick(row, newOk, heldOk));
        forall k | 0 <= k < |t.seen| && t.seen[k].kept
          ensures Decodes(t.v.stored, t.seen[k].row.at, t.seen[k].row.state)
        {
          HeldKeeps(s, row, k);
        }
      }
    }
  }

  /** The held row, being older, does not displace the new one. */
  lemma HeldBefore(rows: seq<Row>, h: Row, row: Row)
    requires h.at < row.at && rows != [] && rows[|rows| - 1] == row
    requires forall k :: 0 <= k < |rows| - 1 ==> rows[k].at < row.at
    ensures Decodes(rows + [h], row.at, row.state)
  {
    NewestPrefix(rows, rows + [h], |rows|, row.at);
    NewestIs(rows, |rows|, row.at);
    var m := Newest(rows, |rows|, row.at);
    assert rows[|rows| - 1].at <= row.at;
  }

  lemma CrashKeeps(s: State, row: Row)
    requires Inv(s) && s.horizon < row.at
    ensures Inv(Do(s, Crash(row)))
  {
    if Unchanged(s.v, row) {
      TickKeeps(s, row, true, true);
      SeedIsLastWritten(s.v, row.at);
    } else {
      NewKeeps(s, row);
      SeedIsLastWritten(WriteNew(s.v, row), row.at);
    }
  }

  lemma {:induction false} RunKeeps(s: State, actions: seq<Action>)
    requires Inv(s) && InOrder(s.horizon, actions)
    ensures Inv(Run(s, actions))
    decreases |actions|
  {
    if actions != [] {
      match actions[0] {
        case Tick(row, newOk, heldOk) => TickKeeps(s, row, newOk, heldOk);
        case Crash(row) => CrashKeeps(s, row);
        case Restart => SeedIsLastWritten(s.v, s.horizon);
      }
      RunKeeps(Do(s, actions[0]), actions[1..]);
    }
  }

  /**
   * Carrying the newest stored row forward reproduces the state of every tick but those whose own insert failed,
   * whatever happens to the held rows and wherever the process restarts.
   */
  lemma TableDecodes(start: State, actions: seq<Action>, k: nat)
    requires Initial(start) && InOrder(start.horizon, actions) && k < |Run(start, actions).seen|
    requires Run(start, actions).seen[k].kept
    ensures var s := Run(start, actions); Decodes(s.v.stored, s.seen[k].row.at, s.seen[k].row.state)
  {
    RunKeeps(start, actions);
  }

  /** At every point, between the two inserts too, the newest stored row by time is the last written checkpoint. */
  lemma BootSeedsFromCheckpoint(start: State, actions: seq<Action>, row: Row)
    requires Initial(start) && InOrder(start.horizon, actions) && Run(start, actions).horizon < row.at
    ensures var s := Run(start, actions); Seeded(s.v.stored, s.horizon).lastWritten == s.v.lastWritten
    ensures var s := Run(start, actions);
            !Unchanged(s.v, row) ==> Seeded(WriteNew(s.v, row).stored, row.at).lastWritten == Some(row)
  {
    RunKeeps(start, actions);
    var s := Run(start, actions);
    SeedIsLastWritten(s.v, s.horizon);
    if !Unchanged(s.v, row) {
      NewKeeps(s, row);
      SeedIsLastWritten(WriteNew(s.v, row), row.at);
    }
  }

  // What the held row is for: changes keep their baseline

  predicate Between(a: int, t: int, b: int) {
    a < t < b
  }

  /** No stored row lies between these two. */
  predicate Adjacent(rows: seq<Row>, a: Row, b: Row) {
    a.at < b.at && forall k :: 0 <= k < |rows| ==> !Between(a.at, rows[k].at, b.at)
  }

  /** Of two adjacent rows with different states, the earlier one is the tick just before the later one. */
  ghost predicate ChangesDated(s: State) {
    forall i, j, k :: 0 <= i < |s.v.stored| && 0 <= j < |s.v.stored| && 0 <= k < |s.seen|
                      && Adjacent(s.v.stored, s.v.stored[i], s.v.stored[j]) && s.v.stored[i].state != s.v.stored[j].state ==>
      !Between(s.v.stored[i].at, s.seen[k].row.at, s.v.stored[j].at)
  }

  /** Every tick since the last written row is no later than the held one. */
  ghost predicate HeldIsLatest(s: State) {
    forall k :: 0 <= k < |s.seen| ==>
      && (s.v.held.Some? ==> s.seen[k].row.at <= s.v.held.value.at)
      && (s.v.held.None? && s.v.lastWritten.Some? ==> s.seen[k].row.at <= s.v.lastWritten.value.at)
      && s.v.lastWritten.Some?
  }

  predicate Faultless(actions: seq<Action>) {
    forall k :: 0 <= k < |actions| ==> actions[k].Tick? && actions[k].newOk && actions[k].heldOk
  }

  /** Adjacent rows after a write: an old pair, or the new row after its baseline. */
  lemma WriteKeepsDates(s: State, row: Row)
    requires Inv(s) && ChangesDated(s) && HeldIsLatest(s) && s.horizon < row.at && !Unchanged(s.v, row)
    ensures ChangesDated(Do(s, Tick(row, true, true)))
  {
    hide Adjacent, Between, Decodes;
    var t := Do(s, Tick(row, true, true));
    if s.v.lastWritten.Some? {
      WrittenRows(s, row);
      LastInPlace(s);
      forall i, j, k | 0 <= i < |t.v.stored| && 0 <= j < |t.v.stored| && 0 <= k < |t.seen|
                       && Adjacent(t.v.stored, t.v.stored[i], t.v.stored[j]) && t.v.stored[i].state != t.v.stored[j].state
        ensures !Between(t.v.stored[i].at, t.seen[k].row.at, t.v.stored[j].at)
      {
        SeenTime(s, row, k);
        if i < |s.v.stored| && j < |s.v.stored| {
          OldPairDated(s, row, i, j, k);
        }
        PairDated(s.v.stored, s.v.lastWritten.value, s.v.held, row, t.v.stored, i, j, t.seen[k].row.at);
      }
    } else {
      assert t.v.stored == [row];
      AloneDated(t, row);
    }
  }

  lemma WrittenRows(s: State, row: Row)
    requires !Unchanged(s.v, row)
    ensures Do(s, Tick(row, true, true)).v.stored
         == s.v.stored + [row] + if s.v.held.Some? then [s.v.held.value] else []
  {
  }

  lemma AloneDated(t: State, row: Row)
    requires t.v.stored == [row]
    ensures ChangesDated(t)
  {
  }

  /** The checkpoint is stored, no row is later, and the held row follows it in the same state. */
  lemma LastInPlace(s: State)
    requires Inv(s) && s.v.lastWritten.Some?
    ensures var last := s.v.lastWritten.value;
            && last in s.v.stored && DistinctTimes(s.v.stored) && last.at <= s.horizon
            && (forall x :: 0 <= x < |s.v.stored| ==> s.v.stored[x].at <= last.at)
            && (s.v.held.Some? ==> s.v.held.value.state == last.state && last.at < s.v.held.value.at <= s.horizon)
  {
    var w :| 0 <= w < |s.v.stored| && s.v.stored[w] == s.v.lastWritten.value;
    hide Decodes, DistinctTimes;
    assert s.v.stored[w].at <= s.horizon;
  }

  /** Every tick but the one of the write is no later than the held row, or else the last written one. */
  lemma SeenTime(s: State, row: Row, k: nat)
    requires HeldIsLatest(s) && k < |Do(s, Tick(row, true, true)).seen| && s.v.lastWritten.Some?
    ensures var t := Do(s, Tick(row, true, true)).seen[k].row.at;
            t == row.at || t <= (if s.v.held.Some? then s.v.held.value.at else s.v.lastWritten.value.at)
  {
  }

  lemma OldPairDated(s: State, row: Row, i: nat, j: nat, k: nat)
    requires ChangesDated(s) && !Unchanged(s.v, row) && i < |s.v.stored| && j < |s.v.stored|
    requires forall x :: 0 <= x < |s.v.stored| ==> s.v.stored[x].at < row.at
    requires var t := Do(s, Tick(row, true, true));
             && k < |t.seen| && i < |t.v.stored| && j < |t.v.stored|
             && Adjacent(t.v.stored, t.v.stored[i], t.v.stored[j]) && t.v.stored[i].state != t.v.stored[j].state
    ensures !Between(s.v.stored[i].at, Do(s, Tick(row, true, true)).seen[k].row.at, s.v.stored[j].at)
  {
    var t := Do(s, Tick(row, true, true));
    WrittenRows(s, row);
    assert t.v.stored[i] == s.v.stored[i] && t.v.stored[j] == s.v.stored[j];
    OldPair(s.v.stored, t.v.stored, s.v.stored[i], s.v.stored[j]);
    hide Adjacent, Ticked, Unchanged;
    if k < |s.seen| {
      assert t.seen[k] == s.seen[k];
    }
  }

  lemma AdjacentBelow(rows: seq<Row>, a: Row, b: Row, x: nat)
    requires Adjacent(rows, a, b) && x < |rows| && rows[x].at < b.at
    ensures rows[x].at <= a.at < b.at
  {
    assert !Between(a.at, rows[x].at, b.at);
  }

  lemma PairDated(
    early: seq<Row>, last: Row, held: Option<Row>, row: Row, rows: seq<Row>, i: nat, j: nat, t: int)
    requires last in early && DistinctTimes(early) && last.at < row.at
    requires forall x :: 0 <= x < |early| ==> early[x].at <= last.at
    requires held.Some? ==> held.value.state == last.state && last.at < held.value.at < row.at
    requires rows == early + [row] + if held.Some? then [held.value] else []
    requires i < |rows| && j < |rows| && Adjacent(rows, rows[i], rows[j]) && rows[i].state != rows[j].state
    requires t == row.at || t <= (if held.Some? then held.value.at else last.at)
    requires i < |early| && j < |early| ==> !Between(early[i].at, t, early[j].at)
    ensures !Between(rows[i].at, t, rows[j].at)
  {
    var w :| 0 <= w < |early| && early[w] == last;
    assert rows[w] == last && rows[|early|] == row && (held.Some? ==> rows[|early| + 1] == held.value);
    assert (i < |early| ==> rows[i] == early[i]) && (j < |early| ==> rows[j] == early[j]);
    AdjacentBelow(rows, rows[i], rows[j], i);
    if j == |early| {
      AdjacentBelow(rows, rows[i], row, if held.Some? then |early| + 1 else w);
    } else if j > |early| {
      AdjacentBelow(rows, rows[i], rows[j], w);
    }
  }

  lemma OldPair(early: seq<Row>, rows: seq<Row>, a: Row, b: Row)
    requires early <= rows && Adjacent(rows, a, b)
    ensures Adjacent(early, a, b)
  {
    forall k | 0 <= k < |early|
      ensures !Between(a.at, early[k].at, b.at)
    {
      assert rows[k] == early[k];
    }
  }

  lemma {:induction false} FaultlessKeeps(s: State, actions: seq<Action>)
    requires Inv(s) && ChangesDated(s) && HeldIsLatest(s) && InOrder(s.horizon, actions) && Faultless(actions)
    ensures ChangesDated(Run(s, actions))
    decreases |actions|
  {
    if actions != [] {
      var row := actions[0].row;
      TickKeeps(s, row, true, true);
      if !Unchanged(s.v, row) {
        WriteKeepsDates(s, row);
      }
      FaultlessKeeps(Do(s, actions[0]), actions[1..]);
    }
  }

  /** When every insert succeeds, two time-adjacent stored rows with different states come from consecutive ticks. */
  lemma ChangesKeepTheirBaseline(start: State, actions: seq<Action>, i: nat, j: nat, k: nat)
    requires Initial(start) && InOrder(start.horizon, actions) && Faultless(actions)
    requires var s := Run(start, actions);
             && i < |s.v.stored| && j < |s.v.stored| && k < |s.seen|
             && Adjacent(s.v.stored, s.v.stored[i], s.v.stored[j]) && s.v.stored[i].state != s.v.stored[j].state
    ensures var s := Run(start, actions); !Between(s.v.stored[i].at, s.seen[k].row.at, s.v.stored[j].at)
  {
    FaultlessKeeps(start, actions);
  }
}
