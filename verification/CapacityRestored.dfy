/**
 * Evidence-driven lock release: apps/server/src/capacity-restored.ts, its guarded statements in
 * packages/database/src/repositories/account.repository.ts, and the second writer of the reset column in
 * apps/server/src/usage-snapshot-sampler.ts. One account; every `await` ends a step, and any other step may come
 * between two steps of a handler.
 */
module CapacityRestored {
  import opened Wrappers
  import opened ProbeMarkers

  const RESET_MATCH_TOLERANCE_MS := 1000
  const RESET_MIRROR_EPSILON_MS := 1000

  /** Columns of the account row. `writes` numbers the cooldown write its lock came from; the table does not hold it. */
  datatype Row = Row(
    until: Option<int>, at: Option<int>, reason: Option<string>, streak: nat, reset: Option<int>,
    paused: bool, pauseHeals: bool, autoFallback: bool, providerUnpauses: bool, writes: nat)

  datatype Window = Window(reset: int, utilization: Option<real>)
  datatype BankedWindow = FiveHour | SevenDay | SevenDayOverage

  /** What a handler acts on: a usage reading, or a banked-reset claim. `at` is when its request started. */
  datatype Evidence = Poll(at: int, windows: seq<Window>) | Claim(at: int, cleared: seq<BankedWindow>)

  datatype Phase =
    | Gathering
    | Called(now: int)
    | Loaded(now: int, seen: Row)
    | Clearing(seen: Row, node: nat)
    | Answered(seen: Row, node: nat, cleared: bool)
    | Stamping(seen: Row, committed: Option<nat>)
    | Skipped
    | Released(node: nat)
    | Refused(node: nat)

  /** `since`, for the proofs only: how many cooldowns had been written when the evidence began. */
  datatype Handler = Handler(evidence: Evidence, since: nat, phase: Phase)

  /** One account of a sampler tick, between reading the account list and writing. */
  datatype Mirror = Mirror(stored: Option<int>, paused: bool)

  datatype State = State(clock: int, row: Row, writes: nat, markers: Chain, handlers: seq<Handler>, mirrors: seq<Mirror>)

  datatype Action =
    | Tick(ms: nat)
    | Limit(until: int, reason: string, escalates: bool)
    | ForgetInstant(notAfter: Option<int>)
    | ClearState
    | Headers(header: Option<int>)
    | Pause(heals: bool)
    | Resume
    | Configure(autoFallback: bool)
    | ArmBurst(until: int)
    | ProbeRecovered(node: nat)
    | Begin(windows: seq<Window>)
    | BeginClaim(cleared: seq<BankedWindow>)
    | Call(h: nat)
    | Read(h: nat)
    | Decide(h: nat)
    | Clear(h: nat, throws: bool)
    | Settle(h: nat)
    | Stamp(h: nat, throws: bool)
    | SamplerRead
    | MirrorWrite(m: nat, observed: int)

  // The handlers' pure parts

  predicate QuotaDerived(reason: Option<string>) {
    reason == Some("weekly_exhausted_429") || reason == Some("session_exhausted_429")
  }

  predicate Unlocked(row: Row, now: int) {
    row.until.None? || row.until.value == 0 || row.until.value <= now
  }

  /** The claim cleared a window this reason waits for. */
  predicate WindowCleared(reason: Option<string>, cleared: seq<BankedWindow>) {
    if reason == Some("weekly_exhausted_429") then SevenDay in cleared || SevenDayOverage in cleared
    else FiveHour in cleared
  }

  predicate Eligible(evidence: Evidence, reason: Option<string>) {
    QuotaDerived(reason) && (evidence.Claim? ==> WindowCleared(reason, evidence.cleared))
  }

  predicate Predates(row: Row, at: int) {
    row.at.Some? && row.at.value < at
  }

  function Distance(a: int, b: int): nat {
    if a < b then b - a else a - b
  }

  /** A reported window still owns the recorded reset: it matches, and is spent or of unknown utilization. */
  predicate Owns(w: Window, reset: int) {
    Distance(w.reset, reset) <= RESET_MATCH_TOLERANCE_MS && (w.utilization.None? || w.utilization.value >= 100.0)
  }

  predicate IsStale(reset: int, windows: seq<Window>) {
    !exists i :: 0 <= i < |windows| && Owns(windows[i], reset)
  }

  predicate Stranded(row: Row, evidence: Evidence) {
    && evidence.Poll?
    && row.paused && row.autoFallback && row.providerUnpauses && row.pauseHeals
    && RecordedReset(row) > evidence.at
    && IsStale(RecordedReset(row), evidence.windows)
  }

  /** `Number(acc.rate_limit_reset)`: a null column reads as 0. */
  function RecordedReset(row: Row): int {
    if row.reset.Some? then row.reset.value else 0
  }

  // The guarded statements

  predicate SameLock(a: Row, b: Row) {
    a.until == b.until && a.at == b.at && a.reason == b.reason
  }

  /** `clearRateLimitOnCapacityRestore`. */
  predicate ClearMatches(row: Row, seen: Row, at: int) {
    SameLock(row, seen) && row.until.Some? && row.reason.Some? && Predates(row, at)
  }

  function Unlock(row: Row): Row {
    row.(until := None, at := None, reason := None, streak := 0)
  }

  /** `stampObservedRateLimitReset`. */
  predicate StampMatches(row: Row, expected: int, at: int) {
    row.reset == Some(expected) && expected > at && row.paused
  }

  /** `setObservedWindowReset`, after the sampler's own skips. */
  predicate MirrorMatches(row: Row, m: Mirror, reset: int) {
    && !m.paused
    && (m.stored.Some? ==> Distance(reset, m.stored.value) >= RESET_MIRROR_EPSILON_MS)
    && row.reset == m.stored
    && !row.paused
  }

  // Steps

  predicate At(s: State, h: nat) {
    h < |s.handlers|
  }

  function Go(s: State, h: nat, phase: Phase): State
    requires At(s, h)
  {
    s.(handlers := s.handlers[h := s.handlers[h].(phase := phase)])
  }

  /** The stamp, where the account is stranded; otherwise the handler is done. */
  function AfterRelease(evidence: Evidence, seen: Row, committed: Option<nat>): Phase {
    if Stranded(seen, evidence) then Stamping(seen, committed)
    else if committed.Some? then Released(committed.value)
    else Skipped
  }

  /** From the row read to the next `await`; a reservation is made here, before the clear is sent. */
  function Decided(s: State, h: nat): State
    requires At(s, h) && s.handlers[h].phase.Loaded?
  {
    var Handler(evidence, _, Loaded(now, seen)) := s.handlers[h];
    if Unlocked(seen, now) then Go(s, h, AfterRelease(evidence, seen, None))
    else if !Eligible(evidence, seen.reason) || !Predates(seen, evidence.at) then Go(s, h, Skipped)
    else Go(s, h, Clearing(seen, |s.markers.nodes|)).(markers := Mark(s.markers))
  }

  function Cleared(s: State, h: nat, throws: bool): State
    requires At(s, h) && s.handlers[h].phase.Clearing?
  {
    var Handler(evidence, _, Clearing(seen, node)) := s.handlers[h];
    var matches := !throws && ClearMatches(s.row, seen, evidence.at);
    Go(s, h, Answered(seen, node, matches)).(row := if matches then Unlock(s.row) else s.row)
  }

  function Settled(s: State, h: nat): State
    requires At(s, h) && s.handlers[h].phase.Answered?
  {
    var Handler(evidence, _, Answered(seen, node, cleared)) := s.handlers[h];
    if cleared then Go(s, h, AfterRelease(evidence, seen, Some(node)))
    else if node < |s.markers.nodes| && Linked(s.markers.nodes) then
      Go(s, h, Refused(node)).(markers := Rollback(s.markers, node))
    else s
  }

  function Stamped(s: State, h: nat, throws: bool): State
    requires At(s, h) && s.handlers[h].phase.Stamping?
  {
    var Handler(evidence, _, Stamping(seen, committed)) := s.handlers[h];
    var matches := !throws && StampMatches(s.row, RecordedReset(seen), evidence.at);
    Go(s, h, if committed.Some? then Released(committed.value) else Skipped)
      .(row := if matches then s.row.(reset := Some(evidence.at)) else s.row)
  }

  function Limited(s: State, until: int, reason: string, escalates: bool): State {
    s.(writes := s.writes + 1,
       row := s.row.(until := Some(until), at := Some(s.clock), reason := Some(reason),
                     streak := s.row.streak + (if escalates then 1 else 0), writes := s.writes + 1))
  }

  function Started(s: State, evidence: Evidence): State {
    s.(handlers := s.handlers + [Handler(evidence, s.writes, Gathering)])
  }

  /** The environment's steps. */
  function Outside(s: State, a: Action): State {
    match a
    case Tick(ms) => s.(clock := s.clock + ms)
    case Limit(until, reason, escalates) => Limited(s, until, reason, escalates)
    case ForgetInstant(notAfter) =>
      if notAfter.None? || s.row.at.None? || s.row.at.value < notAfter.value
      then s.(row := s.row.(at := None, streak := 0)) else s
    case ClearState => s.(row := s.row.(until := None, at := None, reason := None, reset := None))
    case Headers(reset) => s.(row := s.row.(reset := reset))
    case Pause(heals) => s.(row := s.row.(paused := true, pauseHeals := heals))
    case Resume => s.(row := s.row.(paused := false))
    case Configure(autoFallback) => s.(row := s.row.(autoFallback := autoFallback))
    case ArmBurst(until) => s.(markers := Arm(s.markers, until))
    case ProbeRecovered(node) => s.(markers := Recover(s.markers, node))
    case _ => s
  }

  /** One step; a step whose turn it is not leaves the state as it is. */
  function Do(s: State, a: Action): State {
    match a
    case Begin(windows) => Started(s, Poll(s.clock, windows))
    case BeginClaim(cleared) => Started(s, Claim(s.clock, cleared))
    case Call(h) => if At(s, h) && s.handlers[h].phase.Gathering? then Go(s, h, Called(s.clock)) else s
    case Read(h) =>
      if At(s, h) && s.handlers[h].phase.Called? then Go(s, h, Loaded(s.handlers[h].phase.now, s.row)) else s
    case Decide(h) => if At(s, h) && s.handlers[h].phase.Loaded? then Decided(s, h) else s
    case Clear(h, throws) => if At(s, h) && s.handlers[h].phase.Clearing? then Cleared(s, h, throws) else s
    case Settle(h) => if At(s, h) && s.handlers[h].phase.Answered? then Settled(s, h) else s
    case Stamp(h, throws) => if At(s, h) && s.handlers[h].phase.Stamping? then Stamped(s, h, throws) else s
    case SamplerRead => s.(mirrors := s.mirrors + [Mirror(s.row.reset, s.row.paused)])
    case MirrorWrite(m, reset) =>
      if m < |s.mirrors| && MirrorMatches(s.row, s.mirrors[m], reset) then s.(row := s.row.(reset := Some(reset))) else s
    case _ => Outside(s, a)
  }

  function Run(s: State, actions: seq<Action>): State
    decreases |actions|
  {
    if actions == [] then s else Run(Do(s, actions[0]), actions[1..])
  }

  /** A run does one more action after the others. */
  lemma {:induction false} RunMore(s: State, actions: seq<Action>, a: Action)
    ensures Run(s, actions + [a]) == Do(Run(s, actions), a)
    decreases |actions|
  {
    if actions == [] {
      assert actions + [a] == [a] && [a][1..] == [];
    } else {
      assert (actions + [a])[0] == actions[0] && (actions + [a])[1..] == actions[1..] + [a];
      RunMore(Do(s, actions[0]), actions[1..], a);
    }
  }

  predicate Initial(s: State) {
    s.writes == 0 && s.row.writes == 0 && s.markers == NO_MARKERS && s.handlers == [] && s.mirrors == []
  }

  // What every step keeps

  /** The reservation a handler holds or has settled. */
  function Held(phase: Phase): Option<nat> {
    match phase
    case Clearing(_, node) => Some(node)
    case Answered(_, node, _) => Some(node)
    case Stamping(_, committed) => committed
    case Released(node) => Some(node)
    case Refused(node) => Some(node)
    case _ => None
  }

  function Seen(phase: Phase): Option<Row> {
    match phase
    case Loaded(_, seen) => Some(seen)
    case Clearing(seen, _) => Some(seen)
    case Answered(seen, _, _) => Some(seen)
    case Stamping(seen, _) => Some(seen)
    case _ => None
  }

  /** A cooldown later than number `n` carries an instant no earlier than `at`. */
  predicate LaterIsNewer(row: Row, n: nat, at: int) {
    row.writes > n && row.at.Some? ==> row.at.value >= at
  }

  predicate SeenOk(row: Row, seen: Row, h: Handler) {
    && seen.writes <= row.writes
    && (seen.writes == row.writes && row.at.Some? ==> SameLock(row, seen))
    && LaterIsNewer(row, seen.writes, h.evidence.at)
    && LaterIsNewer(seen, h.since, h.evidence.at)
  }

  predicate HeldOk(markers: Chain, phase: Phase) {
    Held(phase).Some? ==>
      && Held(phase).value < |markers.nodes|
      && markers.nodes[Held(phase).value].cooldownUntil.None?
      && (markers.nodes[Held(phase).value].rolledBack <==> phase.Refused?)
  }

  predicate HandlerOk(s: State, h: Handler) {
    && h.evidence.at <= s.clock && h.since <= s.writes
    && LaterIsNewer(s.row, h.since, h.evidence.at)
    && (Seen(h.phase).Some? ==> SeenOk(s.row, Seen(h.phase).value, h))
    && (h.phase.Clearing? || h.phase.Answered? ==>
          Eligible(h.evidence, h.phase.seen.reason) && Predates(h.phase.seen, h.evidence.at))
    && (h.phase.Stamping? ==> Stranded(h.phase.seen, h.evidence))
    && HeldOk(s.markers, h.phase)
  }

  ghost predicate Inv(s: State) {
    && Sound(s.markers)
    && s.row.writes <= s.writes
    && (forall i :: 0 <= i < |s.handlers| ==> HandlerOk(s, s.handlers[i]))
    && forall i, j :: 0 <= i < j < |s.handlers| && Held(s.handlers[i].phase).Some? ==>
         Held(s.handlers[i].phase) != Held(s.handlers[j].phase)
  }

  /** How the table and the clock move between two states. */
  predicate RowGrows(s: State, t: State) {
    && s.clock <= t.clock && s.writes <= t.writes
    && s.row.writes <= t.row.writes <= t.writes
    && (s.row.writes == t.row.writes && t.row.at.Some? ==> SameLock(t.row, s.row))
    && (s.row.writes < t.row.writes ==> t.row.writes > s.writes && (t.row.at.Some? ==> t.row.at.value >= s.clock))
  }

  /** Reservations are only added, and only `except` changes its outcome. */
  predicate ChainGrows(c: Chain, d: Chain, except: Option<nat>) {
    && |c.nodes| <= |d.nodes|
    && forall k :: 0 <= k < |c.nodes| && Some(k) != except ==>
         d.nodes[k].cooldownUntil == c.nodes[k].cooldownUntil && d.nodes[k].rolledBack == c.nodes[k].rolledBack
  }

  lemma HandlerKept(s: State, t: State, h: Handler, except: Option<nat>)
    requires HandlerOk(s, h) && s.row.writes <= s.writes && RowGrows(s, t) && ChainGrows(s.markers, t.markers, except)
    requires Held(h.phase).Some? ==> Held(h.phase) != except
    ensures HandlerOk(t, h)
  {
  }

  /** A step of the environment, or of a mirror, changes no handler. */
  lemma OthersKept(s: State, t: State)
    requires Inv(s) && RowGrows(s, t) && ChainGrows(s.markers, t.markers, None) && Sound(t.markers)
    requires t.handlers == s.handlers
    ensures Inv(t)
  {
    forall i | 0 <= i < |t.handlers|
      ensures HandlerOk(t, t.handlers[i])
    {
      HandlerKept(s, t, s.handlers[i], None);
    }
  }

  /** A step of handler `h` changes that handler alone. */
  lemma OneMoves(s: State, t: State, h: nat, phase: Phase, except: Option<nat>)
    requires Inv(s) && At(s, h) && RowGrows(s, t) && Sound(t.markers)
    requires ChainGrows(s.markers, t.markers, except) && t.handlers == s.handlers[h := s.handlers[h].(phase := phase)]
    requires except.Some? ==> except == Held(s.handlers[h].phase)
    requires HandlerOk(t, t.handlers[h])
    requires Held(phase) == Held(s.handlers[h].phase) || Held(phase).None? || Held(phase) == Some(|s.markers.nodes|)
    ensures Inv(t)
  {
    forall i | 0 <= i < |t.handlers|
      ensures HandlerOk(t, t.handlers[i])
    {
      if i != h {
        HandlerKept(s, t, s.handlers[i], except);
      }
    }
    forall i, j | 0 <= i < j < |t.handlers| && Held(t.handlers[i].phase).Some?
      ensures Held(t.handlers[i].phase) != Held(t.handlers[j].phase)
    {
      assert HandlerOk(s, s.handlers[i]) && HandlerOk(s, s.handlers[j]);
    }
  }

  lemma StartKeeps(s: State, evidence: Evidence)
    requires Inv(s) && evidence.at == s.clock
    ensures Inv(Started(s, evidence))
  {
    var t := Started(s, evidence);
    forall i | 0 <= i < |t.handlers|
      ensures HandlerOk(t, t.handlers[i])
    {
      if i < |s.handlers| {
        HandlerKept(s, t, s.handlers[i], None);
      }
    }
  }

  lemma OutsideKeeps(s: State, a: Action)
    requires Inv(s)
    ensures Inv(Outside(s, a))
  {
    match a {
      case ArmBurst(until) => ArmKeepsSound(s.markers, until);
      case ProbeRecovered(node) => RecoverKeepsSound(s.markers, node);
      case _ =>
    }
    OthersKept(s, Outside(s, a));
  }

  lemma DecideKeeps(s: State, h: nat)
    requires Inv(s) && At(s, h) && s.handlers[h].phase.Loaded?
    ensures Inv(Decided(s, h))
  {
    assert HandlerOk(s, s.handlers[h]) && s.row.writes <= s.writes;
    MarkKeepsSound(s.markers);
    hide Inv, Sound;
    var t := Decided(s, h);
    OneMoves(s, t, h, t.handlers[h].phase, None);
  }

  lemma ClearKeeps(s: State, h: nat, throws: bool)
    requires Inv(s) && At(s, h) && s.handlers[h].phase.Clearing?
    ensures Inv(Cleared(s, h, throws))
  {
    assert HandlerOk(s, s.handlers[h]);
    var t := Cleared(s, h, throws);
    OneMoves(s, t, h, t.handlers[h].phase, None);
  }

  lemma SettleKeeps(s: State, h: nat)
    requires Inv(s) && At(s, h) && s.handlers[h].phase.Answered?
    ensures Inv(Settled(s, h))
  {
    assert HandlerOk(s, s.handlers[h]);
    var t := Settled(s, h);
    var node := s.handlers[h].phase.node;
    if !s.handlers[h].phase.cleared {
      RollbackKeepsSound(s.markers, node);
      OneMoves(s, t, h, t.handlers[h].phase, Some(node));
    } else {
      OneMoves(s, t, h, t.handlers[h].phase, None);
    }
  }

  lemma StampKeeps(s: State, h: nat, throws: bool)
    requires Inv(s) && At(s, h) && s.handlers[h].phase.Stamping?
    ensures Inv(Stamped(s, h, throws))
  {
    assert HandlerOk(s, s.handlers[h]);
    var t := Stamped(s, h, throws);
    OneMoves(s, t, h, t.handlers[h].phase, None);
  }

  lemma CallOrReadKeeps(s: State, a: Action)
    requires Inv(s) && (a.Call? || a.Read?)
    ensures Inv(Do(s, a))
  {
    if Do(s, a) != s {
      assert HandlerOk(s, s.handlers[a.h]);
      OneMoves(s, Do(s, a), a.h, Do(s, a).handlers[a.h].phase, None);
    }
  }

  lemma StepKeeps(s: State, a: Action)
    requires Inv(s)
    ensures Inv(Do(s, a))
  {
    match a {
      case Begin(windows) => StartKeeps(s, Poll(s.clock, windows));
      case BeginClaim(cleared) => StartKeeps(s, Claim(s.clock, cleared));
      case Decide(h) => if Do(s, a) != s { DecideKeeps(s, h); }
      case Clear(h, throws) => if Do(s, a) != s { ClearKeeps(s, h, throws); }
      case Settle(h) => if Do(s, a) != s { SettleKeeps(s, h); }
      case Stamp(h, throws) => if Do(s, a) != s { StampKeeps(s, h, throws); }
      case Call(h) => CallOrReadKeeps(s, a);
      case Read(h) => CallOrReadKeeps(s, a);
      case SamplerRead => OthersKept(s, Do(s, a));
      case MirrorWrite(m, reset) => OthersKept(s, Do(s, a));
      case _ => OutsideKeeps(s, a);
    }
  }

  lemma {:induction false} RunKeeps(s: State, actions: seq<Action>)
    requires Inv(s)
    ensures Inv(Run(s, actions))
    decreases |actions|
  {
    if actions != [] {
      StepKeeps(s, actions[0]);
      RunKeeps(Do(s, actions[0]), actions[1..]);
    }
  }

  lemma StartsSound(s: State)
    requires Initial(s)
    ensures Inv(s)
  {
  }
}
