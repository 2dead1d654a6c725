/** What holds of every run of the lock release and of the two writers of the reset column. */
module CapacityGuarantees {
  import opened Wrappers
  import opened ProbeMarkers
  import opened CapacityRestored

  // Releases

  /** The evidence covers a cooldown for this reason: any reading, or a claim that cleared a window it waits for. */
  predicate Covers(evidence: Evidence, reason: Option<string>) {
    match evidence
    case Poll(_, _) => reason == Some("weekly_exhausted_429") || reason == Some("session_exhausted_429")
    case Claim(_, cleared) =>
      || (reason == Some("weekly_exhausted_429") && (SevenDay in cleared || SevenDayOverage in cleared))
      || (reason == Some("session_exhausted_429") && FiveHour in cleared)
  }

  /**
   * A clear that changes the row removes the very cooldown the handler read, which was written before the evidence
   * began and for a reason that evidence covers; the recorded reset and the pause stay.
   */
  lemma ReleaseIsExact(start: State, actions: seq<Action>, h: nat, throws: bool)
    requires Initial(start)
    ensures var s := Run(start, actions);
            var t := Do(s, Clear(h, throws));
            t.row != s.row ==>
              && !throws && At(s, h) && s.handlers[h].phase.Clearing?
              && var Handler(evidence, since, Clearing(seen, _)) := s.handlers[h];
                 && s.row.until == seen.until && s.row.at == seen.at && s.row.reason == seen.reason
                 && s.row.writes == seen.writes <= since
                 && Covers(evidence, s.row.reason) && s.row.at.Some? && s.row.at.value < evidence.at
                 && t.row == s.row.(until := None, at := None, reason := None, streak := 0)
  {
    StartsSound(start);
    RunKeeps(start, actions);
    var s := Run(start, actions);
    if At(s, h) {
      assert HandlerOk(s, s.handlers[h]);
    }
  }

  /** A handler takes its clock once it has its evidence, and then the row as it is when read. */
  lemma HandlerReads(s: State, h: nat)
    requires At(s, h)
    ensures s.handlers[h].phase.Gathering? ==> Do(s, Call(h)).handlers[h].phase == Called(s.clock)
    ensures s.handlers[h].phase.Called? ==>
      Do(s, Read(h)).handlers[h].phase == Loaded(s.handlers[h].phase.now, s.row)
  {
  }

  /** A cooldown is stamped with the clock, and lengthens the streak exactly if it escalates. */
  lemma CooldownIs(s: State, until: int, reason: string, escalates: bool)
    ensures var t := Do(s, Limit(until, reason, escalates)).row;
            && t.until == Some(until) && t.at == Some(s.clock) && t.reason == Some(reason) && t.writes > s.writes
            && t.streak == s.row.streak + (if escalates then 1 else 0)
            && t.reset == s.row.reset && t.paused == s.row.paused
  {
  }

  /** A step that neither writes the lock nor is the handler's own. */
  predicate LeavesLock(a: Action, h: nat) {
    match a
    case Limit(_, _, _) => false
    case ForgetInstant(_) => false
    case ClearState => false
    case Clear(_, _) => false
    case Call(i) => i != h
    case Read(i) => i != h
    case Decide(i) => i != h
    case Settle(i) => i != h
    case Stamp(i, _) => i != h
    case _ => true
  }

  lemma {:induction false} LockLeft(s: State, actions: seq<Action>, h: nat)
    requires At(s, h) && forall a :: a in actions ==> LeavesLock(a, h)
    ensures At(Run(s, actions), h) && Run(s, actions).handlers[h] == s.handlers[h] && SameLock(Run(s, actions).row, s.row)
    decreases |actions|
  {
    if actions != [] {
      assert actions[0] in actions;
      StepLeavesLock(s, actions[0], h);
      LockLeft(Do(s, actions[0]), actions[1..], h);
    }
  }

  lemma StepLeavesLock(s: State, a: Action, h: nat)
    requires At(s, h) && LeavesLock(a, h)
    ensures At(Do(s, a), h) && Do(s, a).handlers[h] == s.handlers[h] && SameLock(Do(s, a).row, s.row)
  {
    hide Stranded, Eligible, Unlocked, Predates;
  }

  /**
   * A handler that reads a lock still in force, written before its evidence and for a reason that evidence covers,
   * releases it, unless the lock is written or released between its read and its clear.
   */
  lemma CoveredLockIsReleased(s: State, h: nat, first: seq<Action>, second: seq<Action>)
    requires At(s, h) && s.handlers[h].phase.Called?
    requires s.row.until.Some? && s.row.until.value != 0 && s.handlers[h].phase.now < s.row.until.value
    requires Covers(s.handlers[h].evidence, s.row.reason)
    requires s.row.at.Some? && s.row.at.value < s.handlers[h].evidence.at
    requires forall a :: a in first + second ==> LeavesLock(a, h)
    ensures var decided := Do(Run(Do(s, Read(h)), first), Decide(h));
            var t := Do(Run(decided, second), Clear(h, false));
            && t.row.until == None && t.row.at == None && t.row.reason == None && t.row.streak == 0
            && At(t, h) && t.handlers[h].phase.Answered? && t.handlers[h].phase.cleared
  {
    var loaded := Do(s, Read(h));
    assert forall a :: a in first ==> a in first + second;
    assert forall a :: a in second ==> a in first + second;
    LockLeft(loaded, first, h);
    var ready := Run(loaded, first);
    CoveredIsDecided(ready, h);
    LockLeft(Do(ready, Decide(h)), second, h);
  }

  lemma CoveredIsDecided(s: State, h: nat)
    requires At(s, h) && s.handlers[h].phase.Loaded?
    requires var Handler(evidence, _, Loaded(now, seen)) := s.handlers[h];
             && seen.until.Some? && seen.until.value != 0 && now < seen.until.value
             && Covers(evidence, seen.reason) && seen.at.Some? && seen.at.value < evidence.at
    ensures var t := Do(s, Decide(h));
            && t.row == s.row && At(t, h) && t.handlers[h].evidence == s.handlers[h].evidence
            && t.handlers[h].phase == Clearing(s.handlers[h].phase.seen, |s.markers.nodes|)
  {
  }

  /** Steps outside the handlers that rewrite or drop a cooldown. */
  predicate WritesLock(a: Action) {
    a.Limit? || a.ForgetInstant? || a.ClearState?
  }

  predicate StartsHandler(a: Action) {
    a.Begin? || a.BeginClaim?
  }

  lemma OnlyClearsUnlock(s: State, a: Action)
    requires Inv(s) && !WritesLock(a) && !SameLock(Do(s, a).row, s.row)
    ensures a.Clear? && At(s, a.h) && QuotaDerived(s.row.reason) && s.row.writes <= s.handlers[a.h].since
  {
    if a.Clear? {
      assert HandlerOk(s, s.handlers[a.h]);
    }
  }

  lemma SinceKept(s: State, a: Action)
    requires !StartsHandler(a) && !WritesLock(a)
    ensures var t := Do(s, a);
            && |t.handlers| == |s.handlers| && t.row.writes == s.row.writes
            && forall i :: 0 <= i < |t.handlers| ==> t.handlers[i].since == s.handlers[i].since
  {
  }

  /** A cooldown written after every handler's evidence began survives all of them, whatever their order. */
  lemma {:induction false} NewerLockSurvives(s: State, actions: seq<Action>)
    requires Inv(s) && forall i :: 0 <= i < |s.handlers| ==> s.handlers[i].since < s.row.writes
    requires forall a :: a in actions ==> !WritesLock(a) && !StartsHandler(a)
    ensures SameLock(Run(s, actions).row, s.row)
    decreases |actions|
  {
    if actions != [] {
      assert actions[0] in actions;
      if !SameLock(Do(s, actions[0]).row, s.row) {
        OnlyClearsUnlock(s, actions[0]);
      }
      StepKeeps(s, actions[0]);
      SinceKept(s, actions[0]);
      NewerLockSurvives(Do(s, actions[0]), actions[1..]);
    }
  }

  /** A cooldown for any other reason, such as the billing floor, is released by no evidence at all. */
  lemma {:induction false} OtherReasonSurvives(s: State, actions: seq<Action>)
    requires Inv(s) && !QuotaDerived(s.row.reason)
    requires forall a :: a in actions ==> !WritesLock(a)
    ensures SameLock(Run(s, actions).row, s.row)
    decreases |actions|
  {
    if actions != [] {
      assert actions[0] in actions;
      if !SameLock(Do(s, actions[0]).row, s.row) {
        OnlyClearsUnlock(s, actions[0]);
      }
      StepKeeps(s, actions[0]);
      OtherReasonSurvives(Do(s, actions[0]), actions[1..]);
    }
  }

  // Markers

  predicate Finished(phase: Phase) {
    phase.Skipped? || phase.Released? || phase.Refused?
  }

  /**
   * An attempt holds one reservation no other attempt holds. It is live from before the clear is sent until the
   * attempt settles; afterwards it is rolled back exactly if the attempt was refused.
   */
  lemma AttemptHoldsOneReservation(start: State, actions: seq<Action>, h: nat)
    requires Initial(start)
    ensures var s := Run(start, actions);
            At(s, h) && Held(s.handlers[h].phase).Some? ==>
              && var n := Held(s.handlers[h].phase).value;
                 && n < |s.markers.nodes|
                 && (Live(s.markers.nodes, n) <==> !s.handlers[h].phase.Refused?)
                 && forall i :: 0 <= i < |s.handlers| && i != h ==> Held(s.handlers[i].phase) != Some(n)
  {
    StartsSound(start);
    RunKeeps(start, actions);
    var s := Run(start, actions);
    if At(s, h) {
      assert HandlerOk(s, s.handlers[h]);
    }
  }

  /** A clear that did not match, or threw, is answered by a rollback. */
  lemma RefusedRollsBack(start: State, actions: seq<Action>, h: nat)
    requires Initial(start)
    ensures var s := Run(start, actions);
            At(s, h) && s.handlers[h].phase.Answered? && !s.handlers[h].phase.cleared ==>
              && var node := s.handlers[h].phase.node;
                 var t := Do(s, Settle(h));
                 && t.handlers[h].phase == Refused(node) && t.row == s.row
                 && node < |t.markers.nodes| && t.markers.nodes[node].rolledBack
  {
    StartsSound(start);
    RunKeeps(start, actions);
    var s := Run(start, actions);
    if At(s, h) {
      assert HandlerOk(s, s.handlers[h]);
      StepKeeps(s, Settle(h));
    }
  }

  lemma StepKeepsSettled(s: State, a: Action, h: nat)
    requires Inv(s) && At(s, h)
    ensures At(Do(s, a), h)
    ensures Finished(s.handlers[h].phase) ==> Do(s, a).handlers[h] == s.handlers[h]
    ensures Held(s.handlers[h].phase).Some? ==> Held(Do(s, a).handlers[h].phase) == Held(s.handlers[h].phase)
  {
    assert HandlerOk(s, s.handlers[h]);
  }

  /** A settled attempt never settles again, and an attempt never changes its reservation. */
  lemma {:induction false} SettledOnce(s: State, actions: seq<Action>, h: nat)
    requires Inv(s) && At(s, h)
    ensures At(Run(s, actions), h)
    ensures Finished(s.handlers[h].phase) ==> Run(s, actions).handlers[h] == s.handlers[h]
    ensures Held(s.handlers[h].phase).Some? ==> Held(Run(s, actions).handlers[h].phase) == Held(s.handlers[h].phase)
    decreases |actions|
  {
    if actions != [] {
      StepKeepsSettled(s, actions[0], h);
      StepKeeps(s, actions[0]);
      SettledOnce(Do(s, actions[0]), actions[1..], h);
    }
  }

  lemma {:induction false} FloorKept(s: State, actions: seq<Action>)
    requires forall a :: a in actions ==> !a.ProbeRecovered?
    ensures Run(s, actions).markers.floor == s.markers.floor
    decreases |actions|
  {
    if actions != [] {
      assert actions[0] in actions;
      assert Do(s, actions[0]).markers.floor == s.markers.floor;
      FloorKept(Do(s, actions[0]), actions[1..]);
    }
  }

  /**
   * From the moment an attempt reserves, before its clear is sent, the account stays gated by that reservation or a
   * newer live one, until a probe recovers or the attempt itself is refused. So a released account is never
   * unmarked, however the overlapping attempts fare.
   */
  lemma ReleaseStaysGated(start: State, before: seq<Action>, h: nat, after: seq<Action>)
    requires Initial(start)
    requires var s := Run(start, before); At(s, h) && s.handlers[h].phase.Loaded?
    requires Do(Run(start, before), Decide(h)).handlers[h].phase.Clearing?
    requires forall a :: a in after ==> !a.ProbeRecovered?
    ensures var s := Run(start, before);
            var node := |s.markers.nodes|;
            var t := Run(Do(s, Decide(h)), after);
            At(t, h) && (!t.handlers[h].phase.Refused? ==>
              t.markers.slot.Some? && t.markers.slot.value >= node && Live(t.markers.nodes, t.markers.slot.value))
  {
    StartsSound(start);
    RunKeeps(start, before);
    var s := Run(start, before);
    StepKeeps(s, Decide(h));
    var u := Do(s, Decide(h));
    RunKeeps(u, after);
    SettledOnce(u, after, h);
    FloorKept(u, after);
    var t := Run(u, after);
    assert HandlerOk(t, t.handlers[h]);
    if !t.handlers[h].phase.Refused? {
      LiveKeepsMarker(t.markers, |s.markers.nodes|);
    }
  }

  ghost predicate HeldBySome(s: State, n: nat) {
    exists i :: 0 <= i < |s.handlers| && Held(s.handlers[i].phase) == Some(n)
  }

  /** Every reservation belongs to an attempt, except those a burst cooldown armed. */
  ghost predicate AllHeld(s: State) {
    forall n :: 0 <= n < |s.markers.nodes| && s.markers.nodes[n].cooldownUntil.None? ==> HeldBySome(s, n)
  }

  lemma StepKeepsAllHeld(s: State, a: Action)
    requires Inv(s) && AllHeld(s)
    ensures AllHeld(Do(s, a))
  {
    var t := Do(s, a);
    forall n | 0 <= n < |t.markers.nodes| && t.markers.nodes[n].cooldownUntil.None?
      ensures HeldBySome(t, n)
    {
      if n < |s.markers.nodes| {
        assert HeldBySome(s, n);
        var i :| 0 <= i < |s.handlers| && Held(s.handlers[i].phase) == Some(n);
        StepKeepsSettled(s, a, i);
        assert Held(t.handlers[i].phase) == Some(n);
      } else {
        assert a.Decide? && Held(t.handlers[a.h].phase) == Some(n);
      }
    }
  }

  lemma {:induction false} RunKeepsAllHeld(s: State, actions: seq<Action>)
    requires Inv(s) && AllHeld(s)
    ensures AllHeld(Run(s, actions))
    decreases |actions|
  {
    if actions != [] {
      StepKeepsAllHeld(s, actions[0]);
      StepKeeps(s, actions[0]);
      RunKeepsAllHeld(Do(s, actions[0]), actions[1..]);
    }
  }

  /**
   * No marker is left over from failed attempts: what gates the account was armed by a burst cooldown, or belongs
   * to an attempt that released the account or has not settled yet.
   */
  lemma MarkerHasACause(start: State, actions: seq<Action>)
    requires Initial(start)
    ensures var s := Run(start, actions);
            s.markers.slot.Some? ==>
              && s.markers.slot.value < |s.markers.nodes|
              && (s.markers.nodes[s.markers.slot.value].cooldownUntil.Some?
                  || exists i :: 0 <= i < |s.handlers| && Held(s.handlers[i].phase) == s.markers.slot
                                 && !s.handlers[i].phase.Refused?)
  {
    StartsSound(start);
    RunKeeps(start, actions);
    RunKeepsAllHeld(start, actions);
    var s := Run(start, actions);
    if s.markers.slot.Some? {
      NewestIs(s.markers.nodes, s.markers.floor, |s.markers.nodes|);
      var n := s.markers.slot.value;
      if s.markers.nodes[n].cooldownUntil.None? {
        assert HeldBySome(s, n);
        var i :| 0 <= i < |s.handlers| && Held(s.handlers[i].phase) == Some(n);
        assert HandlerOk(s, s.handlers[i]);
      }
    }
  }

  // The reset column

  /**
   * A stamp that changes the row moves a future reset of a paused account back to the start of the observation, and
   * no window of that observation both matches the reset and is spent or of unknown utilization.
   */
  lemma StampOnlyUnownedReset(start: State, actions: seq<Action>, h: nat, throws: bool)
    requires Initial(start)
    ensures var s := Run(start, actions);
            var t := Do(s, Stamp(h, throws));
            t.row != s.row ==>
              && At(s, h) && s.handlers[h].evidence.Poll? && s.row.paused
              && var Poll(at, windows) := s.handlers[h].evidence;
                 && s.row.reset.Some? && s.row.reset.value > at
                 && t.row == s.row.(reset := Some(at))
                 && forall w :: w in windows && -1000 <= w.reset - s.row.reset.value <= 1000 ==>
                      w.utilization.Some? && w.utilization.value < 100.0
  {
    StartsSound(start);
    RunKeeps(start, actions);
    var s := Run(start, actions);
    if At(s, h) {
      assert HandlerOk(s, s.handlers[h]);
    }
  }

  /**
   * An account is stranded by a reading: paused in a way the provider's next reset lifts, with the fallback that does so
   * turned on, and with a recorded reset still to come that no window of the reading accounts for, at its own reset and
   * spent or of unknown use.
   */
  lemma StrandedIs(row: Row, at: int, windows: seq<Window>)
    ensures Stranded(row, Poll(at, windows))
       <==> && row.paused && row.pauseHeals && row.autoFallback && row.providerUnpauses
            && (if row.reset.Some? then row.reset.value else 0) > at
            && forall w :: w in windows
                           && -1000 <= w.reset - (if row.reset.Some? then row.reset.value else 0) <= 1000 ==>
                 w.utilization.Some? && w.utilization.value < 100.0
  {
    if w :| w in windows && Owns(w, RecordedReset(row)) {
      var i :| 0 <= i < |windows| && windows[i] == w;
    }
  }

  /** A handler goes on to the stamp after an unlocked row or a release, exactly if the account is stranded. */
  lemma StampFollows(s: State, h: nat)
    requires At(s, h)
    ensures var Handler(evidence, _, phase) := s.handlers[h];
            phase.Loaded? && (phase.seen.until in {None, Some(0)} || phase.seen.until.value <= phase.now) ==>
              Do(s, Decide(h)).handlers[h].phase == if Stranded(phase.seen, evidence) then Stamping(phase.seen, None) else Skipped
    ensures var Handler(evidence, _, phase) := s.handlers[h];
            phase.Answered? && phase.cleared ==>
              Do(s, Settle(h)).handlers[h].phase
              == if Stranded(phase.seen, evidence) then Stamping(phase.seen, Some(phase.node)) else Released(phase.node)
  {
    hide Stranded;
  }

  /** The stamp lands while the account is paused at the reset the handler read, if that is still to come. */
  lemma StampLands(s: State, h: nat)
    requires At(s, h) && s.handlers[h].phase.Stamping?
    ensures var Handler(evidence, _, Stamping(seen, _)) := s.handlers[h];
            var expected := if seen.reset.Some? then seen.reset.value else 0;
            Do(s, Stamp(h, false)).row
            == if s.row.paused && s.row.reset == Some(expected) && expected > evidence.at
               then s.row.(reset := Some(evidence.at)) else s.row
    ensures Do(s, Stamp(h, true)).row == s.row
  {
  }

  /**
   * A mirror write lands exactly if neither the account as the tick read it nor the row is paused, the observation is a
   * second or more from what was read, and the row still holds that.
   */
  lemma MirrorLands(s: State, m: nat, observed: int)
    requires m < |s.mirrors|
    ensures var Mirror(stored, paused) := s.mirrors[m];
            Do(s, MirrorWrite(m, observed)).row
            == if !paused && !s.row.paused && s.row.reset == stored
                  && (stored.Some? ==> observed <= stored.value - 1000 || stored.value + 1000 <= observed)
               then s.row.(reset := Some(observed)) else s.row
  {
  }

  predicate FallsFrom(now: Option<int>, before: Option<int>) {
    now == before || (now.Some? && before.Some? && now.value < before.value)
  }

  /** The reset last given by response headers or dropped with the rate-limit state; `base` if neither came. */
  function Given(base: Option<int>, actions: seq<Action>): Option<int>
    decreases |actions|
  {
    if actions == [] then base
    else
      match actions[|actions| - 1]
      case Headers(reset) => reset
      case ClearState => None
      case _ => Given(base, actions[..|actions| - 1])
  }

  lemma {:induction false} RunLast(s: State, actions: seq<Action>, n: nat)
    requires n < |actions|
    ensures Run(s, actions[..n + 1]) == Do(Run(s, actions[..n]), actions[n])
    decreases n
  {
    if n == 0 {
      assert actions[..1] == [actions[0]] && actions[..0] == [];
      assert [actions[0]][1..] == [];
    } else {
      assert actions[..n + 1][1..] == actions[1..][..n] && actions[..n][1..] == actions[1..][..n - 1];
      RunLast(Do(s, actions[0]), actions[1..], n - 1);
    }
  }

  lemma PausedStep(s: State, a: Action)
    requires Inv(s) && s.row.paused && !a.Resume?
    ensures Do(s, a).row.paused
    ensures !a.Headers? && !a.ClearState? ==> FallsFrom(Do(s, a).row.reset, s.row.reset)
    ensures a.Headers? ==> Do(s, a).row.reset == a.header
    ensures a.ClearState? ==> Do(s, a).row.reset == None
    ensures a.MirrorWrite? ==> Do(s, a) == s
  {
  }

  /**
   * While the account stays paused, its recorded reset only falls from what it was or what headers or a state clear
   * last made it, and no mirror write lands.
   */
  lemma {:induction false} PausedResetOnlyFalls(s: State, actions: seq<Action>, n: nat)
    requires Inv(s) && s.row.paused && n <= |actions| && forall a :: a in actions ==> !a.Resume?
    ensures var t := Run(s, actions[..n]);
            && Inv(t) && t.row.paused
            && FallsFrom(t.row.reset, Given(s.row.reset, actions[..n]))
            && (n < |actions| && actions[n].MirrorWrite? ==> Do(t, actions[n]) == t)
    decreases n
  {
    if n > 0 {
      PausedResetOnlyFalls(s, actions, n - 1);
      RunLast(s, actions, n - 1);
      assert actions[..n][..n - 1] == actions[..n - 1] && actions[n - 1] in actions;
      PausedStep(Run(s, actions[..n - 1]), actions[n - 1]);
      StepKeeps(Run(s, actions[..n - 1]), actions[n - 1]);
    } else {
      assert actions[..0] == [];
    }
    if n < |actions| && actions[n].MirrorWrite? {
      PausedStep(Run(s, actions[..n]), actions[n]);
    }
  }

  /** Where a pending mirror write read its row. */
  lemma {:induction false} MirrorReadAt(start: State, actions: seq<Action>, n: nat, m: nat) returns (j: nat)
    requires Initial(start) && n <= |actions| && m < |Run(start, actions[..n]).mirrors|
    ensures j < n && actions[j].SamplerRead?
    ensures var read := Run(start, actions[..j]).row;
            Run(start, actions[..n]).mirrors[m] == Mirror(read.reset, read.paused)
  {
    if n == 0 {
      assert false;
    }
    RunLast(start, actions, n - 1);
    var s := Run(start, actions[..n - 1]);
    if m < |s.mirrors| {
      j := MirrorReadAt(start, actions, n - 1, m);
      assert Do(s, actions[n - 1]).mirrors[m] == s.mirrors[m] by {
        MirrorsStand(s, actions[n - 1], m);
      }
    } else {
      j := n - 1;
    }
  }

  lemma MirrorsStand(s: State, a: Action, m: nat)
    requires m < |s.mirrors|
    ensures m < |Do(s, a).mirrors| && Do(s, a).mirrors[m] == s.mirrors[m]
  {
  }

  /**
   * In every run a mirror write that lands replaces the very value the account held when its tick read it, and the
   * account is active now and was then: whatever another writer recorded in between is never overwritten, unless it
   * has been set back.
   */
  lemma MirrorNeverOverwritesAnother(start: State, actions: seq<Action>, m: nat, observed: int) returns (j: nat)
    requires Initial(start)
    requires var s := Run(start, actions); Do(s, MirrorWrite(m, observed)).row != s.row
    ensures j < |actions| && actions[j].SamplerRead?
    ensures var s, read := Run(start, actions), Run(start, actions[..j]).row;
            && !s.row.paused && !read.paused && s.row.reset == read.reset
            && Do(s, MirrorWrite(m, observed)).row == s.row.(reset := Some(observed))
            && (read.reset.Some? ==> Distance(observed, read.reset.value) >= RESET_MIRROR_EPSILON_MS)
  {
    assert actions[..|actions|] == actions;
    j := MirrorReadAt(start, actions, |actions|, m);
  }

  // Why the guards are there

  /**
   * Overlapping attempts, the older committing and the newer failing: the rollback must restore the older
   * reservation, not empty the slot.
   */
  lemma OverlappingAttempts()
    ensures var c := Mark(Mark(NO_MARKERS));
            Linked(c.nodes) && Rollback(c, 1).slot == Some(0)
            && Linked(Rollback(c, 0).nodes) && Rollback(c, 0).slot == Some(1) && Rollback(Rollback(c, 0), 1).slot == None
  {
    var c := Mark(Mark(NO_MARKERS));
    assert RolledBack(c, 0)[1].previous == Some(0);
  }
}
