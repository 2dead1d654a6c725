/**
 * Session affinity pins across restarts: apps/server/src/affinity-pin-persistence.ts. Every database operation is one
 * task of a promise chain; each task has a step before its `await` and one after.
 */
module AffinityPins {
  import opened Wrappers

  /** Pins, told apart and not looked into. */
  type Pins = seq<string>

  /** A live strategy. A defined revision changes with the pins. */
  datatype Strategy = Strategy(revision: Option<nat>, pins: Pins, exports: bool, imports: bool)

  datatype Work = Write | Restore(strategy: nat)

  datatype Phase =
    | Queued
    | Writing(strategy: nat, revision: Option<nat>, pins: Pins)
    | Reading
    | Settled

  /** `fromTick` tasks clear `tickQueued` when they settle; `final` ones come from a final flush. */
  datatype Task = Task(work: Work, fromTick: bool, final: bool, phase: Phase)

  datatype Written = Written(strategy: nat, revision: Option<nat>)

  /** `writes` counts writes begun, and `landed` those that changed the table. */
  datatype State = State(
    strategies: seq<Strategy>, live: Option<nat>, table: Pins, tasks: seq<Task>, tickQueued: bool, stopped: bool,
    closed: bool, written: Option<Written>, writes: nat, landed: nat)

  datatype Action =
    | Change(strategy: nat, pins: Pins)
    | Replace(next: Strategy, handOver: bool)
    | NoStrategy
    | TickTimer
    | Snapshot
    | AskRestore(strategy: nat)
    | FlushFinal
    | FlushTimeout
    | Begin(t: nat)
    | EndWrite(t: nat, succeeds: bool)
    | EndRead(t: nat, succeeds: bool)

  // The promise chain

  predicate MayBegin(tasks: seq<Task>, t: nat) {
    t < |tasks| && tasks[t].phase.Queued? && (t > 0 ==> tasks[t - 1].phase.Settled?)
  }

  function Serial(s: State, work: Work, fromTick: bool, final: bool): State {
    s.(tasks := s.tasks + [Task(work, fromTick, final, Queued)])
  }

  function Enter(s: State, t: nat, phase: Phase): State
    requires t < |s.tasks|
  {
    s.(tasks := s.tasks[t := s.tasks[t].(phase := phase)])
  }

  function Settle(s: State, t: nat): State
    requires t < |s.tasks|
  {
    Enter(s, t, Settled).(tickQueued := s.tickQueued && !s.tasks[t].fromTick)
  }

  /** New pins, and with them a new revision where the strategy has one. */
  function Import(strategies: seq<Strategy>, i: nat, pins: Pins): seq<Strategy>
    requires i < |strategies|
  {
    var x := strategies[i];
    strategies[i := x.(pins := pins, revision := if x.revision.Some? then Some(x.revision.value + 1) else None)]
  }

  // `writeIfChanged`, in two steps

  /** The live strategy's revision is the one the table was last written from. */
  predicate UpToDate(s: State) {
    && s.live.Some? && s.live.value < |s.strategies|
    && s.strategies[s.live.value].revision.Some?
    && s.written == Some(Written(s.live.value, s.strategies[s.live.value].revision))
  }

  predicate Exportable(s: State) {
    s.live.Some? && s.live.value < |s.strategies| && s.strategies[s.live.value].exports
  }

  function BeginWrite(s: State, t: nat): State
    requires t < |s.tasks|
  {
    if s.closed || !Exportable(s) || UpToDate(s) then Settle(s, t)
    else
      var x := s.strategies[s.live.value];
      Enter(s, t, Writing(s.live.value, x.revision, x.pins)).(writes := s.writes + 1)
  }

  function Begun(s: State, t: nat): State
    requires t < |s.tasks|
  {
    match s.tasks[t].work
    case Write => BeginWrite(s, t)
    case Restore(strategy) =>
      if strategy < |s.strategies| && s.strategies[strategy].imports then Enter(s, t, Reading) else Settle(s, t)
  }

  /** The replacement is one transaction: a failed write leaves the table as it was. */
  function WriteEnded(s: State, t: nat, succeeds: bool): State
    requires t < |s.tasks| && s.tasks[t].phase.Writing?
  {
    var Writing(strategy, revision, pins) := s.tasks[t].phase;
    if succeeds then
      Settle(s, t).(table := pins, written := Some(Written(strategy, revision)), landed := s.landed + 1)
    else Settle(s, t)
  }

  function ReadEnded(s: State, t: nat, succeeds: bool): State
    requires t < |s.tasks| && s.tasks[t].phase.Reading? && s.tasks[t].work.Restore?
  {
    var i := s.tasks[t].work.strategy;
    if succeeds && i < |s.strategies| then Settle(s, t).(strategies := Import(s.strategies, i, s.table)) else Settle(s, t)
  }

  /** `adopt`: the outgoing strategy hands its pins over, or the table is read. */
  function Replaced(s: State, next: Strategy, handOver: bool): State {
    var i := |s.strategies|;
    var added := s.(strategies := s.strategies + [next], live := Some(i));
    if !next.imports then added
    else if handOver && Exportable(s) then added.(strategies := Import(added.strategies, i, s.strategies[s.live.value].pins))
    else Serial(added, Restore(i), false, false)
  }

  function Do(s: State, a: Action): State {
    match a
    case Change(strategy, pins) =>
      if strategy < |s.strategies| then s.(strategies := Import(s.strategies, strategy, pins)) else s
    case Replace(next, handOver) => Replaced(s, next, handOver)
    case NoStrategy => s.(live := None)
    case TickTimer =>
      if s.tickQueued || s.stopped then s else Serial(s, Write, true, false).(tickQueued := true)
    case Snapshot => if s.stopped then s else Serial(s, Write, false, false)
    case AskRestore(strategy) => Serial(s, Restore(strategy), false, false)
    case FlushFinal => Serial(s, Write, false, true).(stopped := true)
    case FlushTimeout => s.(closed := s.closed || s.stopped)
    case Begin(t) => if MayBegin(s.tasks, t) then Begun(s, t) else s
    case EndWrite(t, succeeds) => if t < |s.tasks| && s.tasks[t].phase.Writing? then WriteEnded(s, t, succeeds) else s
    case EndRead(t, succeeds) =>
      if t < |s.tasks| && s.tasks[t].phase.Reading? && s.tasks[t].work.Restore? then ReadEnded(s, t, succeeds) else s
  }

  function Run(s: State, actions: seq<Action>): State
    decreases |actions|
  {
    if actions == [] then s else Run(Do(s, actions[0]), actions[1..])
  }

  /** A run does one more action after the others. */
  lemma {:induction false} RunMore(s: State, actions: seq<Action>, a: Action)
    ensures Run(s, actions + [a]) == Do(Run(s, actions), a)
    decreases |actions|
  {
    if actions == [] {
      assert actions + [a] == [a] && [a][1..] == [];
    } else {
      assert (actions + [a])[0] == actions[0] && (actions + [a])[1..] == actions[1..] + [a];
      RunMore(Do(s, actions[0]), actions[1..], a);
    }
  }

  predicate Initial(s: State) {
    && s.strategies == [] && s.live.None? && s.tasks == [] && s.written.None?
    && !s.tickQueued && !s.stopped && !s.closed && s.writes == 0 && s.landed == 0
  }

  lemma BeginsWrite(s: State, t: nat)
    requires MayBegin(s.tasks, t) && s.tasks[t].work.Write?
    ensures Do(s, Begin(t))
         == (if !s.closed && s.live.Some? && s.live.value < |s.strategies| && s.strategies[s.live.value].exports then
               var x := s.strategies[s.live.value];
               if x.revision.None? || s.written != Some(Written(s.live.value, x.revision)) then
                 Enter(s, t, Writing(s.live.value, x.revision, x.pins)).(writes := s.writes + 1)
               else Settle(s, t)
             else Settle(s, t))
  {
    hide Settle, Enter;
  }

  // The object's own fields

  class Persistence {
    var tickQueued: bool
    var stopped: bool
    var closed: bool
    var written: Option<Written>
    var tasks: seq<Task>

    constructor ()
      ensures !tickQueued && !stopped && !closed && written == None && tasks == []
    {
      tickQueued, stopped, closed, written, tasks := false, false, false, None, [];
    }

    /** The fields as a machine state, beside a given database and strategies. */
    ghost function In(s: State): State
      reads this
    {
      s.(tickQueued := tickQueued, stopped := stopped, closed := closed, written := written, tasks := tasks)
    }

    method Enqueue(work: Work, fromTick: bool, final: bool)
      modifies this`tasks
      ensures tasks == old(tasks) + [Task(work, fromTick, final, Queued)]
    {
      tasks := tasks + [Task(work, fromTick, final, Queued)];
    }

    method Tick(ghost s: State)
      modifies this
      ensures In(s) == Do(old(In(s)), TickTimer)
    {
      if tickQueued || stopped {
        return;
      }
      tickQueued := true;
      Enqueue(Write, true, false);
    }

    method SnapshotNow(ghost s: State)
      modifies this
      ensures In(s) == Do(old(In(s)), Snapshot)
    {
      if stopped {
        return;
      }
      Enqueue(Write, false, false);
    }

    method Flush(ghost s: State)
      modifies this
      ensures In(s) == Do(old(In(s)), FlushFinal)
    {
      stopped := true;
      Enqueue(Write, false, true);
    }

    /** Up to the `await` of `writeIfChanged`: the pins to write, if any. */
    method WriteIfChanged(t: nat, strategies: seq<Strategy>, live: Option<nat>, ghost s: State) returns (pins: Option<Pins>)
      requires t < |tasks| && tasks[t].work.Write? && MayBegin(tasks, t)
      requires s.strategies == strategies && s.live == live
      modifies this
      ensures In(s) == Do(old(In(s)), Begin(t)).(writes := s.writes)
      ensures pins.Some? <==> tasks[t].phase.Writing?
      ensures pins.Some? ==> pins.value == tasks[t].phase.pins
    {
      ghost var now := In(s);
      BeginsWrite(now, t);
      hide Do, Begun, MayBegin, BeginWrite, UpToDate, Exportable;
      var mine := tasks[t];
      pins := None;
      if !closed && live.Some? && live.value < |strategies| && strategies[live.value].exports {
        var x := strategies[live.value];
        if x.revision.None? || written != Some(Written(live.value, x.revision)) {
          tasks := tasks[t := mine.(phase := Writing(live.value, x.revision, x.pins))];
          return Some(x.pins);
        }
      }
      tasks := tasks[t := mine.(phase := Settled)];
      tickQueued := tickQueued && !mine.fromTick;
    }
  }

  // What every step keeps

  /** Revisions a write carried, or that were recorded, are none the strategy has yet to reach. */
  predicate Reached(s: State, w: Written) {
    && w.strategy < |s.strategies|
    && (w.revision.Some? ==> s.strategies[w.strategy].revision.Some?
                             && w.revision.value <= s.strategies[w.strategy].revision.value)
  }

  /** The pins belong to the revision, as long as the strategy is still at it. */
  predicate Belongs(s: State, w: Written, pins: Pins) {
    w.revision.Some? && w.strategy < |s.strategies| && s.strategies[w.strategy].revision == w.revision ==>
      s.strategies[w.strategy].pins == pins
  }

  /** Settled tasks, then at most one under way, then queued ones. */
  predicate Chained(tasks: seq<Task>) {
    forall i, j :: 0 <= i < j < |tasks| && !tasks[j].phase.Queued? ==> tasks[i].phase.Settled?
  }

  predicate TaskOk(s: State, task: Task) {
    task.phase.Writing? ==>
      var w := Written(task.phase.strategy, task.phase.revision);
      Reached(s, w) && Belongs(s, w, task.phase.pins)
  }

  ghost predicate Inv(s: State) {
    && Chained(s.tasks)
    && (s.written.Some? ==> Reached(s, s.written.value) && Belongs(s, s.written.value, s.table))
    && forall t :: 0 <= t < |s.tasks| ==> TaskOk(s, s.tasks[t])
  }

  /** Strategies only move on: the same pins at the same revision, or a later revision. */
  predicate MovesOn(a: seq<Strategy>, b: seq<Strategy>) {
    && |a| <= |b|
    && forall i :: 0 <= i < |a| ==>
         || b[i] == a[i]
         || (a[i].revision.None? && b[i].revision.None?)
         || (a[i].revision.Some? && b[i].revision.Some? && a[i].revision.value < b[i].revision.value)
  }

  lemma ReachedKept(s: State, u: State, w: Written, pins: Pins)
    requires MovesOn(s.strategies, u.strategies) && Reached(s, w) && Belongs(s, w, pins)
    ensures Reached(u, w) && Belongs(u, w, pins)
  {
  }

  /** Whatever the strategies do, recorded and carried revisions keep their pins. */
  lemma StrategiesMove(s: State, u: State)
    requires Inv(s) && MovesOn(s.strategies, u.strategies) && u.written == s.written && u.table == s.table
    requires Chained(u.tasks)
    requires forall t :: 0 <= t < |u.tasks| && u.tasks[t].phase.Writing? ==> t < |s.tasks| && u.tasks[t].phase == s.tasks[t].phase
    ensures Inv(u)
  {
    if s.written.Some? {
      ReachedKept(s, u, s.written.value, s.table);
    }
    forall t | 0 <= t < |u.tasks|
      ensures TaskOk(u, u.tasks[t])
    {
      if u.tasks[t].phase.Writing? {
        assert TaskOk(s, s.tasks[t]);
        ReachedKept(s, u, Written(u.tasks[t].phase.strategy, u.tasks[t].phase.revision), u.tasks[t].phase.pins);
      }
    }
  }

  lemma ChainMoves(tasks: seq<Task>, t: nat, phase: Phase)
    requires Chained(tasks) && t < |tasks|
    requires MayBegin(tasks, t) || (!tasks[t].phase.Queued? && !tasks[t].phase.Settled? && phase.Settled?)
    ensures Chained(tasks[t := tasks[t].(phase := phase)])
  {
  }

  lemma BeginKeeps(s: State, t: nat)
    requires Inv(s) && MayBegin(s.tasks, t)
    ensures Inv(Begun(s, t)) && Begun(s, t).strategies == s.strategies
  {
    hide Begun;
    var u := Begun(s, t);
    BegunMoves(s, t);
    BegunOk(s, t);
    ChainMoves(s.tasks, t, u.tasks[t].phase);
    forall k | 0 <= k < |u.tasks|
      ensures TaskOk(u, u.tasks[k])
    {
      assert TaskOk(s, s.tasks[k]);
    }
  }

  /** Beginning a task touches its own phase, which is one its work calls for. */
  lemma BegunMoves(s: State, t: nat)
    requires t < |s.tasks|
    ensures var u := Begun(s, t);
            && |u.tasks| == |s.tasks| && u.tasks == s.tasks[t := s.tasks[t].(phase := u.tasks[t].phase)]
            && u.strategies == s.strategies && u.written == s.written && u.table == s.table && u.landed == s.landed
            && u.stopped == s.stopped
            && (u.tasks[t].phase.Writing? ==> s.tasks[t].work.Write?)
            && (u.tasks[t].phase.Reading? ==> s.tasks[t].work.Restore?)
            && (s.tasks[t].work.Restore? ==> u.writes == s.writes)
  {
    hide UpToDate, Exportable;
  }

  /** What a task that begins carries is what the live strategy holds. */
  lemma BegunOk(s: State, t: nat)
    requires t < |s.tasks|
    ensures t < |Begun(s, t).tasks| && TaskOk(Begun(s, t), Begun(s, t).tasks[t])
  {
    hide UpToDate;
  }

  lemma EndWriteKeeps(s: State, t: nat, succeeds: bool)
    requires Inv(s) && t < |s.tasks| && s.tasks[t].phase.Writing?
    ensures Inv(WriteEnded(s, t, succeeds)) && WriteEnded(s, t, succeeds).strategies == s.strategies
  {
    var u := WriteEnded(s, t, succeeds);
    ChainMoves(s.tasks, t, Settled);
    assert TaskOk(s, s.tasks[t]);
    forall k | 0 <= k < |u.tasks|
      ensures TaskOk(u, u.tasks[k])
    {
      assert TaskOk(s, s.tasks[k]);
    }
  }

  lemma ImportMoves(strategies: seq<Strategy>, i: nat, pins: Pins)
    ensures i < |strategies| ==> MovesOn(strategies, Import(strategies, i, pins))
  {
  }

  lemma ReplaceKeeps(s: State, next: Strategy, handOver: bool)
    requires Inv(s)
    ensures Inv(Replaced(s, next, handOver))
  {
    var u := Replaced(s, next, handOver);
    assert forall t :: 0 <= t < |s.tasks| ==> u.tasks[t] == s.tasks[t];
    assert |u.tasks| == |s.tasks| || u.tasks == s.tasks + [Task(Restore(|s.strategies|), false, false, Queued)];
    assert forall i :: 0 <= i < |s.strategies| ==> u.strategies[i] == s.strategies[i];
    StrategiesMove(s, u);
  }

  lemma SerialKeeps(s: State, u: State, task: Task)
    requires Inv(s) && u.tasks == s.tasks + [task] && task.phase.Queued?
    requires u.strategies == s.strategies && u.written == s.written && u.table == s.table
    ensures Inv(u)
  {
    StrategiesMove(s, u);
  }

  lemma StepKeeps(s: State, a: Action)
    requires Inv(s)
    ensures Inv(Do(s, a))
  {
    hide TaskOk, Reached, Belongs, MovesOn, Begun, Exportable;
    var u := Do(s, a);
    match a {
      case Change(strategy, pins) =>
        if u != s {
          ImportMoves(s.strategies, strategy, pins);
          StrategiesMove(s, u);
        }
      case Replace(next, handOver) => ReplaceKeeps(s, next, handOver);
      case Begin(t) => if u != s { BeginKeeps(s, t); }
      case EndWrite(t, succeeds) => if u != s { EndWriteKeeps(s, t, succeeds); }
      case EndRead(t, succeeds) =>
        if u != s {
          ChainMoves(s.tasks, t, Settled);
          ImportMoves(s.strategies, s.tasks[t].work.strategy, s.table);
          StrategiesMove(s, u);
        }
      case NoStrategy => StrategiesMove(s, u);
      case FlushTimeout => StrategiesMove(s, u);
      case _ =>
        if u.tasks != s.tasks {
          SerialKeeps(s, u, u.tasks[|s.tasks|]);
        }
    }
  }

  lemma {:induction false} RunKeeps(s: State, actions: seq<Action>)
    requires Inv(s)
    ensures Inv(Run(s, actions))
    decreases |actions|
  {
    if actions != [] {
      StepKeeps(s, actions[0]);
      RunKeeps(Do(s, actions[0]), actions[1..]);
    }
  }

  /** Whenever a write would be skipped as unchanged, the table holds exactly the live strategy's pins. */
  lemma SkippingIsSafe(start: State, actions: seq<Action>)
    requires Initial(start)
    ensures var s := Run(start, actions); UpToDate(s) ==> s.table == s.strategies[s.live.value].pins
  {
    RunKeeps(start, actions);
  }

  /** Tasks run one at a time, in the order they were queued. */
  lemma TasksAreSerial(start: State, actions: seq<Action>, i: nat, j: nat)
    requires Initial(start) && i < j < |Run(start, actions).tasks|
    ensures var s := Run(start, actions);
            !s.tasks[j].phase.Queued? ==> s.tasks[i].phase.Settled?
  {
    RunKeeps(start, actions);
  }

  // The final flush

  /** No task that writes is waiting or under way. */
  predicate NoWriteLeft(tasks: seq<Task>) {
    forall t :: 0 <= t < |tasks| && tasks[t].work.Write? ==> tasks[t].phase.Settled?
  }

  /** Tasks hold the phase their work calls for. */
  predicate Fitting(tasks: seq<Task>) {
    forall t :: 0 <= t < |tasks| ==>
      (tasks[t].phase.Writing? ==> tasks[t].work.Write?) && (tasks[t].phase.Reading? ==> tasks[t].work.Restore?)
  }

  lemma StoppedStep(s: State, a: Action)
    requires s.stopped && NoWriteLeft(s.tasks) && Fitting(s.tasks) && !a.FlushFinal?
    ensures var u := Do(s, a); u.stopped && NoWriteLeft(u.tasks) && Fitting(u.tasks)
    ensures Do(s, a).table == s.table && Do(s, a).writes == s.writes && Do(s, a).landed == s.landed
  {
    hide Begun, Import, Exportable, UpToDate;
    if a.Begin? && Do(s, a) != s {
      BegunMoves(s, a.t);
    }
  }

  lemma {:induction false} NoWriteAfterFlush(s: State, actions: seq<Action>)
    requires s.stopped && NoWriteLeft(s.tasks) && Fitting(s.tasks)
    requires forall k :: 0 <= k < |actions| ==> !actions[k].FlushFinal?
    ensures var u := Run(s, actions); u.table == s.table && u.writes == s.writes && u.landed == s.landed
    decreases |actions|
  {
    if actions != [] {
      StoppedStep(s, actions[0]);
      NoWriteAfterFlush(Do(s, actions[0]), actions[1..]);
    }
  }

  /** Nothing that writes is queued behind a final flush. */
  ghost predicate FlushIsLast(s: State) {
    && Fitting(s.tasks)
    && (forall t :: 0 <= t < |s.tasks| && s.tasks[t].final ==> s.stopped)
    && forall t, u :: 0 <= t < u < |s.tasks| && s.tasks[t].final && s.tasks[u].work.Write? ==> s.tasks[u].final
  }

  lemma {:induction false} FlushStaysLast(s: State, actions: seq<Action>)
    requires FlushIsLast(s)
    ensures FlushIsLast(Run(s, actions))
    decreases |actions|
  {
    if actions != [] {
      FlushStep(s, actions[0]);
      FlushStaysLast(Do(s, actions[0]), actions[1..]);
    }
  }

  lemma FlushAppends(s: State, u: State, task: Task)
    requires FlushIsLast(s) && u.tasks == s.tasks + [task] && task.phase.Queued? && (s.stopped ==> u.stopped)
    requires if task.final then u.stopped else task.work.Write? ==> !s.stopped
    ensures FlushIsLast(u)
  {
  }

  lemma FlushPhase(s: State, u: State, t: nat, phase: Phase)
    requires FlushIsLast(s) && t < |s.tasks| && u.tasks == s.tasks[t := s.tasks[t].(phase := phase)] && u.stopped == s.stopped
    requires (phase.Writing? ==> s.tasks[t].work.Write?) && (phase.Reading? ==> s.tasks[t].work.Restore?)
    ensures FlushIsLast(u)
  {
    forall x, y | 0 <= x < y < |u.tasks| && u.tasks[x].final && u.tasks[y].work.Write?
      ensures u.tasks[y].final
    {
      assert s.tasks[x].final && s.tasks[y].work.Write?;
    }
  }

  lemma FlushStep(s: State, a: Action)
    requires FlushIsLast(s)
    ensures FlushIsLast(Do(s, a))
  {
    hide FlushIsLast, Fitting, Begun, Import, Exportable;
    var u := Do(s, a);
    match a {
      case Begin(t) => if u != s { BegunMoves(s, t); FlushPhase(s, u, t, u.tasks[t].phase); }
      case EndWrite(t, succeeds) => if u != s { FlushPhase(s, u, t, Settled); }
      case EndRead(t, succeeds) => if u != s { FlushPhase(s, u, t, Settled); }
      case TickTimer => if u != s { FlushAppends(s, u, Task(Write, true, false, Queued)); }
      case Snapshot => if u != s { FlushAppends(s, u, Task(Write, false, false, Queued)); }
      case AskRestore(strategy) => FlushAppends(s, u, Task(Restore(strategy), false, false, Queued));
      case FlushFinal => FlushAppends(s, u, Task(Write, false, true, Queued));
      case Replace(next, handOver) =>
        if u.tasks != s.tasks {
          FlushAppends(s, u, Task(Restore(|s.strategies|), false, false, Queued));
        } else {
          FlushSame(s, u);
        }
      case _ => FlushSame(s, u);
    }
  }

  lemma FlushSame(s: State, u: State)
    requires FlushIsLast(s) && u.tasks == s.tasks && u.stopped == s.stopped
    ensures FlushIsLast(u)
  {
  }

  /**
   * When a final flush settles its write successfully, and there is no other final flush, the table holds what it
   * wrote from then on: no write begins and none lands.
   */
  lemma FinalFlushIsLastWrite(start: State, before: seq<Action>, t: nat, after: seq<Action>)
    requires Initial(start)
    requires var s := Run(start, before);
             && t < |s.tasks| && s.tasks[t].final && s.tasks[t].phase.Writing?
             && forall u :: t < u < |s.tasks| ==> !s.tasks[u].final
    requires forall k :: 0 <= k < |after| ==> !after[k].FlushFinal?
    ensures var s := Run(start, before);
            var landed := Do(s, EndWrite(t, true));
            && landed.table == s.tasks[t].phase.pins
            && Run(landed, after).table == landed.table
            && Run(landed, after).writes == landed.writes && Run(landed, after).landed == landed.landed
  {
    RunKeeps(start, before);
    FlushStaysLast(start, before);
    NoWriteAfterFlush(Do(Run(start, before), EndWrite(t, true)), after);
  }

  lemma ClosedStep(s: State, a: Action)
    requires s.closed
    ensures Do(s, a).closed && Do(s, a).writes == s.writes
  {
  }

  lemma {:induction false} ClosedRun(s: State, actions: seq<Action>)
    requires s.closed
    ensures Run(s, actions).writes == s.writes
    decreases |actions|
  {
    if actions != [] {
      ClosedStep(s, actions[0]);
      ClosedRun(Do(s, actions[0]), actions[1..]);
    }
  }

  /** After a final flush timed out no write begins, though one under way may still land. */
  lemma NoWriteBeginsAfterTimeout(s: State, before: seq<Action>, after: seq<Action>)
    ensures var flushed := Run(Do(s, FlushFinal), before);
            Run(Do(flushed, FlushTimeout), after).writes == flushed.writes
  {
    StoppedStays(Do(s, FlushFinal), before);
    ClosedRun(Do(Run(Do(s, FlushFinal), before), FlushTimeout), after);
  }

  lemma {:induction false} StoppedStays(s: State, actions: seq<Action>)
    requires s.stopped
    ensures Run(s, actions).stopped
    decreases |actions|
  {
    if actions != [] {
      assert Do(s, actions[0]).stopped;
      StoppedStays(Do(s, actions[0]), actions[1..]);
    }
  }

  // Pins come back

  /** A write lands as a whole or not at all. */
  lemma WriteLands(s: State, t: nat, succeeds: bool)
    requires t < |s.tasks| && s.tasks[t].phase.Writing?
    ensures var Writing(strategy, revision, pins) := s.tasks[t].phase; var u := Do(s, EndWrite(t, succeeds));
            && u.strategies == s.strategies && u.tasks == s.tasks[t := s.tasks[t].(phase := Settled)]
            && if succeeds then u.table == pins && u.written == Some(Written(strategy, revision)) && u.landed == s.landed + 1
               else u.table == s.table && u.written == s.written && u.landed == s.landed
  {
  }

  /** A restore that its strategy takes puts the stored pins, as they then are, into that strategy alone. */
  lemma RestoreBrings(s: State, t: nat, succeeds: bool)
    requires t < |s.tasks| && s.tasks[t].phase.Reading? && s.tasks[t].work.Restore?
    requires s.tasks[t].work.strategy < |s.strategies|
    ensures var i := s.tasks[t].work.strategy; var u := Do(s, EndRead(t, succeeds));
            && u.table == s.table && u.tasks[t].phase.Settled? && |u.strategies| == |s.strategies|
            && (forall k :: 0 <= k < |s.strategies| && (k != i || !succeeds) ==> u.strategies[k] == s.strategies[k])
            && (succeeds ==>
                  && u.strategies[i].pins == s.table
                  && (s.strategies[i].revision.Some? ==> u.strategies[i].revision != s.strategies[i].revision))
  {
  }

  /** A restore reads the table exactly if its strategy takes pins; otherwise it is over. */
  lemma RestoreBegins(s: State, t: nat)
    requires MayBegin(s.tasks, t) && s.tasks[t].work.Restore?
    ensures var i := s.tasks[t].work.strategy; var u := Do(s, Begin(t));
            u.tasks[t].phase == if i < |s.strategies| && s.strategies[i].imports then Reading else Settled
  {
  }

  /**
   * A replacing strategy goes live. If it takes pins, it has those of the one it replaces, where that hands them over;
   * otherwise a restore is queued for it.
   */
  lemma ReplacementTakesOver(s: State, next: Strategy, handOver: bool)
    ensures var i := |s.strategies|; var u := Do(s, Replace(next, handOver));
            && |u.strategies| == i + 1 && u.live == Some(i) && u.strategies[..i] == s.strategies
            && (!next.imports ==> u.strategies[i] == next && u.tasks == s.tasks)
            && (next.imports && handOver && Exportable(s) ==>
                  u.strategies[i].pins == s.strategies[s.live.value].pins && u.tasks == s.tasks)
            && (next.imports && !(handOver && Exportable(s)) ==>
                  u.strategies[i] == next && u.tasks == s.tasks + [Task(Restore(i), false, false, Queued)])
  {
  }

  /** A change of pins is a change of revision too, where the strategy counts them. */
  lemma ChangeIs(s: State, i: nat, pins: Pins)
    requires i < |s.strategies|
    ensures var u := Do(s, Change(i, pins));
            && |u.strategies| == |s.strategies| && u.strategies[i].pins == pins
            && (u.strategies[i].revision.Some? <==> s.strategies[i].revision.Some?)
            && (s.strategies[i].revision.Some? ==> u.strategies[i].revision.value > s.strategies[i].revision.value)
            && forall k :: 0 <= k < |s.strategies| && k != i ==> u.strategies[k] == s.strategies[k]
  {
  }

  /** What a final flush wrote is what a restore of the next process brings back. */
  lemma RestartRestores(start: State, before: seq<Action>, t: nat, after: seq<Action>, next: State, r: nat)
    requires Initial(start)
    requires var s := Run(start, before);
             && t < |s.tasks| && s.tasks[t].final && s.tasks[t].phase.Writing?
             && forall u :: t < u < |s.tasks| ==> !s.tasks[u].final
    requires forall k :: 0 <= k < |after| ==> !after[k].FlushFinal?
    requires next.table == Run(Do(Run(start, before), EndWrite(t, true)), after).table
    requires r < |next.tasks| && next.tasks[r].phase.Reading? && next.tasks[r].work.Restore?
    requires next.tasks[r].work.strategy < |next.strategies|
    ensures Do(next, EndRead(r, true)).strategies[next.tasks[r].work.strategy].pins == Run(start, before).tasks[t].phase.pins
  {
    hide Do, Run, Initial;
    FinalFlushIsLastWrite(start, before, t, after);
    RestoreBrings(next, r, true);
  }
}
