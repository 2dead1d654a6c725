/**
 * The diagnosis tick of apps/server/src/anthropic-subscription-diagnosis.ts, as a machine with one step per `await`.
 * `start` and `stop` may come between any two steps.
 */
module SubscriptionDiagnosis {
  import opened Wrappers
  import opened SubscriptionRefresh

  datatype Credentials = Credentials(accessToken: string, refreshToken: Option<string>)

  datatype Retry = Retry(credentials: Credentials, nextAttempt: int)

  type Retries = map<string, Retry>

  function CredentialsOf(a: Account): Credentials {
    Credentials(a.accessToken, a.refreshToken)
  }

  /** `needsDiagnosis`. */
  predicate NeedsDiagnosis(a: Account) {
    Eligible(a) && a.paused && a.denied
  }

  predicate RetryDue(retries: Retries, a: Account, now: int) {
    a.id !in retries || retries[a.id].credentials != CredentialsOf(a) || now >= retries[a.id].nextAttempt
  }

  predicate Due(retries: Retries, a: Account, now: int) {
    NeedsDiagnosis(a) && RetryDue(retries, a, now) && IsDue(a, now, DiagnosisThrottle(a))
  }

  /** `new Map(accounts.map((a) => [a.id, a])).get(id)`: where the last account with this id is, or -1. */
  function Place(accounts: seq<Account>, n: nat, id: string): (k: int)
    requires n <= |accounts|
    ensures -1 <= k < n
  {
    if n == 0 then -1 else if accounts[n - 1].id == id then n - 1 else Place(accounts, n - 1, id)
  }

  /** The sweep drops a retry whose account is gone, no longer needs diagnosis, or holds other credentials. */
  predicate SweptAway(accounts: seq<Account>, id: string, retry: Retry) {
    var k := Place(accounts, |accounts|, id);
    k < 0 || !NeedsDiagnosis(accounts[k]) || retry.credentials != CredentialsOf(accounts[k])
  }

  function Swept(retries: Retries, accounts: seq<Account>): set<string> {
    set id | id in retries && SweptAway(accounts, id, retries[id])
  }

  /** The next account the loop would read; the length of the list if none is due. */
  function NextDue(retries: Retries, accounts: seq<Account>, i: nat, now: int): (j: nat)
    requires i <= |accounts|
    ensures i <= j <= |accounts| && (j < |accounts| ==> Due(retries, accounts[j], now))
    decreases |accounts| - i
  {
    if i == |accounts| || Due(retries, accounts[i], now) then i else NextDue(retries, accounts, i + 1, now)
  }

  /**
   * An account is due when it is an Anthropic one with a refresh token, paused over a denial, with no standing attempt
   * of the last five minutes under its credentials, and checked neither in the last five minutes nor, if a profile read
   * since its last check found it active, in the last six hours.
   */
  lemma DueIs(retries: Retries, a: Account, now: int)
    ensures Due(retries, a, now)
       <==> && a.anthropic && a.refreshToken !in {None, Some("")} && a.paused && a.denied
            && (a.id in retries && retries[a.id].credentials == Credentials(a.accessToken, a.refreshToken) ==>
                  retries[a.id].nextAttempt <= now)
            && (a.checkedAt.Some? ==>
                  var confirmed := a.statusActive && a.fetchedAt.Some? && a.fetchedAt.value >= a.checkedAt.value;
                  now >= a.checkedAt.value + if confirmed then 21_600_000 else 300_000)
  {
  }

  lemma {:induction false} PlaceIs(accounts: seq<Account>, n: nat, id: string)
    requires n <= |accounts|
    ensures var k := Place(accounts, n, id);
            (k >= 0 ==> accounts[k].id == id) && forall j :: 0 <= j < n && j > k ==> accounts[j].id != id
  {
    if n > 0 && accounts[n - 1].id != id {
      PlaceIs(accounts, n - 1, id);
    }
  }

  /**
   * A retry stays exactly if the last account listed under its id still needs diagnosis and holds the credentials it was
   * made with.
   */
  lemma SweptAwayIs(accounts: seq<Account>, id: string, retry: Retry)
    ensures SweptAway(accounts, id, retry)
       <==> !exists k :: && 0 <= k < |accounts| && accounts[k].id == id
                         && (forall j :: k < j < |accounts| ==> accounts[j].id != id)
                         && accounts[k].anthropic && accounts[k].refreshToken !in {None, Some("")}
                         && accounts[k].paused && accounts[k].denied
                         && accounts[k].accessToken == retry.credentials.accessToken
                         && accounts[k].refreshToken == retry.credentials.refreshToken
  {
    PlaceIs(accounts, |accounts|, id);
  }

  /** The loop passes over no due account. */
  lemma {:induction false} NextDueIsFirst(retries: Retries, accounts: seq<Account>, i: nat, now: int, k: nat)
    requires i <= k < |accounts| && Due(retries, accounts[k], now)
    ensures NextDue(retries, accounts, i, now) <= k
    decreases k - i
  {
    if i < k && !Due(retries, accounts[i], now) {
      NextDueIsFirst(retries, accounts, i + 1, now, k);
    }
  }

  // The object's fields

  datatype Fields = Fields(active: bool, running: bool, generation: nat, retries: Retries)

  function Activated(f: Fields): Fields {
    if f.active then f else f.(active := true, generation := f.generation + 1)
  }

  function Deactivated(f: Fields): Fields {
    f.(active := false, generation := f.generation + 1, retries := map[])
  }

  predicate Current(f: Fields, generation: nat) {
    f.active && f.generation == generation
  }

  function Attempted(f: Fields, a: Account, now: int): Fields {
    f.(retries := f.retries[a.id := Retry(CredentialsOf(a), now + DIAGNOSIS_RETRY_MS)])
  }

  class Diagnosis {
    var active: bool
    var running: bool
    var generation: nat
    var retries: Retries

    constructor ()
      ensures Value() == Fields(false, false, 0, map[])
    {
      active, running, generation, retries := false, false, 0, map[];
    }

    function Value(): Fields
      reads this
    {
      Fields(active, running, generation, retries)
    }

    method Start()
      modifies this
      ensures Value() == Activated(old(Value()))
    {
      if active {
        return;
      }
      active := true;
      generation := generation + 1;
    }

    method Stop()
      modifies this
      ensures Value() == Deactivated(old(Value()))
    {
      active := false;
      generation := generation + 1;
      retries := map[];
    }

    /** The head of `tick`: whether it goes on, and under which generation. */
    method Enter() returns (entered: bool, mine: nat)
      modifies this`running
      ensures entered <==> old(active) && !old(running)
      ensures running == (old(running) || entered) && mine == generation
    {
      mine := generation;
      entered := active && !running;
      if entered {
        running := true;
      }
    }

    /** After the account list: drop the retries it overtakes. */
    method Sweep(accounts: seq<Account>)
      modifies this`retries
      ensures retries == old(retries) - Swept(old(retries), accounts)
    {
      ghost var before := retries;
      var left := retries.Keys;
      while left != {}
        invariant left <= before.Keys
        invariant forall id :: id in left ==> id in retries
        invariant forall id :: id in retries <==> id in before && (id in left || id !in Swept(before, accounts))
        invariant forall id :: id in retries ==> retries[id] == before[id]
      {
        var id :| id in left;
        left := left - {id};
        if SweptAway(accounts, id, retries[id]) {
          retries := retries - {id};
        }
      }
    }

    method NoteAttempt(a: Account, now: int)
      modifies this`retries
      ensures Value() == Attempted(old(Value()), a, now)
    {
      retries := retries[a.id := Retry(CredentialsOf(a), now + DIAGNOSIS_RETRY_MS)];
    }
  }

  // Ticks

  datatype Stage = RefreshRow | RefreshClaim | RefreshProfile | RefreshReread | RefreshStore

  datatype Phase =
    | AwaitAccounts
    | AwaitRow(i: nat)
    | AwaitToken(i: nat, id: string)
    | AwaitRefresh(i: nat, stage: Stage)
    | Over

  datatype Tick = Tick(generation: nat, accounts: seq<Account>, phase: Phase)

  datatype Kind = ListCall | RowCall | TokenCall | RefreshCall(stage: Stage)

  /** A call a tick begins, and the object's `active` and `generation` at that moment. */
  datatype Call = Call(kind: Kind, tick: nat, generation: nat, activeThen: bool, generationThen: nat)

  datatype Event =
    | Attempt(id: string, credentials: Credentials, at: int, generation: nat)
    | Succeeded(id: string)
    | Dropped(ids: set<string>)
    | Halted(generation: nat)

  datatype State = State(fields: Fields, ticks: seq<Tick>, calls: seq<Call>, events: seq<Event>)

  /** `fetchable` is what `canFetchProfile` says; `None` is a missing row or a thrown error. */
  datatype Action =
    | StartIt
    | StopIt
    | BeginTick(fetchable: bool)
    | GotAccounts(t: nat, accounts: Option<seq<Account>>, now: int, fetchable: bool)
    | GotRow(t: nat, row: Option<Account>, now: int, fetchable: bool)
    | GotToken(t: nat, token: Option<string>, now: int, fetchable: bool)
    | RefreshStep(t: nat, proceeds: bool, now: int, fetchable: bool)

  predicate At(s: State, t: nat) {
    t < |s.ticks|
  }

  function Move(s: State, t: nat, phase: Phase): State
    requires At(s, t)
  {
    s.(ticks := s.ticks[t := s.ticks[t].(phase := phase)])
  }

  function Calls(s: State, t: nat, kind: Kind): State
    requires At(s, t)
  {
    s.(calls := s.calls + [Call(kind, t, s.ticks[t].generation, s.fields.active, s.fields.generation)])
  }

  function Finish(s: State, t: nat): State
    requires At(s, t)
  {
    Move(s, t, Over).(fields := s.fields.(running := false))
  }

  /** The loop from account `i` on, up to its next `await` or its end. */
  function Loop(s: State, t: nat, i: nat, now: int, fetchable: bool): State
    requires At(s, t)
  {
    var accounts := s.ticks[t].accounts;
    if !Current(s.fields, s.ticks[t].generation) || !fetchable || i > |accounts| then Finish(s, t)
    else
      var j := NextDue(s.fields.retries, accounts, i, now);
      if j == |accounts| then Finish(s, t) else Calls(Move(s, t, AwaitRow(j)), t, RowCall)
  }

  /** `stop` logs its generation; everything after it belongs to a later one. */
  function StopAll(s: State): State {
    s.(fields := Deactivated(s.fields), events := s.events + [Halted(s.fields.generation + 1)])
  }

  function Begun(s: State, fetchable: bool): State {
    if !s.fields.active || s.fields.running then s
    else
      var t := |s.ticks|;
      var entered := s.(fields := s.fields.(running := true),
                        ticks := s.ticks + [Tick(s.fields.generation, [], AwaitAccounts)]);
      if fetchable then Calls(entered, t, ListCall) else Finish(entered, t)
  }

  function Listed(s: State, t: nat, accounts: Option<seq<Account>>, now: int, fetchable: bool): State
    requires At(s, t)
  {
    if accounts.None? || !Current(s.fields, s.ticks[t].generation) then Finish(s, t)
    else
      var ids := Swept(s.fields.retries, accounts.value);
      var swept := s.(fields := s.fields.(retries := s.fields.retries - ids), events := s.events + [Dropped(ids)],
                      ticks := s.ticks[t := s.ticks[t].(accounts := accounts.value)]);
      Loop(swept, t, 0, now, fetchable)
  }

  function RowRead(s: State, t: nat, i: nat, row: Option<Account>, now: int, fetchable: bool): State
    requires At(s, t)
  {
    if row.None? || !Current(s.fields, s.ticks[t].generation) || !fetchable || !Due(s.fields.retries, row.value, now)
    then Loop(s, t, i + 1, now, fetchable)
    else
      var a := row.value;
      var noted := s.(fields := Attempted(s.fields, a, now),
                      events := s.events + [Attempt(a.id, CredentialsOf(a), now, s.fields.generation)]);
      Calls(Move(noted, t, AwaitToken(i, a.id)), t, TokenCall)
  }

  function TokenRead(s: State, t: nat, i: nat, id: string, token: Option<string>, now: int, fetchable: bool): State
    requires At(s, t)
  {
    if token.None? || token.value == "" || !Current(s.fields, s.ticks[t].generation) then Loop(s, t, i + 1, now, fetchable)
    else
      var cleared := s.(fields := s.fields.(retries := s.fields.retries - {id}), events := s.events + [Succeeded(id)]);
      Calls(Move(cleared, t, AwaitRefresh(i, RefreshRow)), t, RefreshCall(RefreshRow))
  }

  function NextStage(stage: Stage): Option<Stage> {
    match stage
    case RefreshRow => Some(RefreshClaim)
    case RefreshClaim => Some(RefreshProfile)
    case RefreshProfile => Some(RefreshReread)
    case RefreshReread => Some(RefreshStore)
    case RefreshStore => None
  }

  function Refreshed(s: State, t: nat, i: nat, stage: Stage, proceeds: bool, now: int, fetchable: bool): State
    requires At(s, t)
  {
    var next := NextStage(stage);
    if !proceeds || next.None? || !Current(s.fields, s.ticks[t].generation) then Loop(s, t, i + 1, now, fetchable)
    else Calls(Move(s, t, AwaitRefresh(i, next.value)), t, RefreshCall(next.value))
  }

  function Do(s: State, a: Action): State {
    match a
    case StartIt => s.(fields := Activated(s.fields))
    case StopIt => StopAll(s)
    case BeginTick(fetchable) => Begun(s, fetchable)
    case GotAccounts(t, accounts, now, fetchable) =>
      if At(s, t) && s.ticks[t].phase.AwaitAccounts? then Listed(s, t, accounts, now, fetchable) else s
    case GotRow(t, row, now, fetchable) =>
      if At(s, t) && s.ticks[t].phase.AwaitRow? then RowRead(s, t, s.ticks[t].phase.i, row, now, fetchable) else s
    case GotToken(t, token, now, fetchable) =>
      if At(s, t) && s.ticks[t].phase.AwaitToken?
      then TokenRead(s, t, s.ticks[t].phase.i, s.ticks[t].phase.id, token, now, fetchable) else s
    case RefreshStep(t, proceeds, now, fetchable) =>
      if At(s, t) && s.ticks[t].phase.AwaitRefresh?
      then Refreshed(s, t, s.ticks[t].phase.i, s.ticks[t].phase.stage, proceeds, now, fetchable) else s
  }

  function Run(s: State, actions: seq<Action>): State
    decreases |actions|
  {
    if actions == [] then s else Run(Do(s, actions[0]), actions[1..])
  }

  predicate Initial(s: State) {
    s.fields == Fields(false, false, 0, map[]) && s.ticks == [] && s.calls == [] && s.events == []
  }

  // One tick at a time

  predicate InFlight(s: State, t: nat) {
    t < |s.ticks| && !s.ticks[t].phase.Over?
  }

  /** `running` is set exactly while some tick is in flight, and then only one is. */
  ghost predicate OneTick(s: State) {
    && (forall t, u :: InFlight(s, t) && InFlight(s, u) ==> t == u)
    && (s.fields.running <==> exists t :: InFlight(s, t))
  }

  predicate Lawful(c: Call) {
    c.activeThen && c.generationThen == c.generation
  }

  ghost predicate CallsLawful(s: State) {
    forall k :: 0 <= k < |s.calls| ==> Lawful(s.calls[k])
  }

  lemma LoopKeepsOne(s: State, t: nat, i: nat, now: int, fetchable: bool)
    requires OneTick(s) && InFlight(s, t)
    ensures OneTick(Loop(s, t, i, now, fetchable))
  {
    var u := Loop(s, t, i, now, fetchable);
    assert forall x :: x != t ==> (InFlight(u, x) <==> InFlight(s, x));
    if !u.ticks[t].phase.Over? {
      assert InFlight(u, t);
    }
  }

  lemma StepKeepsOne(s: State, a: Action)
    requires OneTick(s)
    ensures OneTick(Do(s, a))
  {
    var u := Do(s, a);
    match a {
      case StartIt => assert forall x :: InFlight(u, x) <==> InFlight(s, x);
      case StopIt => assert forall x :: InFlight(u, x) <==> InFlight(s, x);
      case BeginTick(fetchable) =>
        if u != s {
          assert forall x :: x != |s.ticks| ==> (InFlight(u, x) <==> InFlight(s, x));
          assert forall x :: !InFlight(s, x);
          assert InFlight(u, |s.ticks|) <==> fetchable;
        }
      case GotAccounts(t, accounts, now, fetchable) =>
        if u != s { ListedKeepsOne(s, t, accounts, now, fetchable); }
      case GotRow(t, row, now, fetchable) =>
        if u != s { RowKeepsOne(s, t, s.ticks[t].phase.i, row, now, fetchable); }
      case GotToken(t, token, now, fetchable) =>
        if u != s { TokenKeepsOne(s, t, s.ticks[t].phase.i, s.ticks[t].phase.id, token, now, fetchable); }
      case RefreshStep(t, proceeds, now, fetchable) =>
        if u != s { RefreshKeepsOne(s, t, s.ticks[t].phase.i, s.ticks[t].phase.stage, proceeds, now, fetchable); }
    }
  }

  /** States that agree on ticks in flight and on `running` agree on `OneTick`. */
  lemma SameFlights(s: State, u: State, t: nat)
    requires OneTick(s) && InFlight(s, t) && InFlight(u, t) && u.fields.running == s.fields.running
    requires forall x :: x != t ==> (InFlight(u, x) <==> InFlight(s, x))
    ensures OneTick(u)
  {
  }

  lemma ListedKeepsOne(s: State, t: nat, accounts: Option<seq<Account>>, now: int, fetchable: bool)
    requires OneTick(s) && InFlight(s, t)
    ensures OneTick(Listed(s, t, accounts, now, fetchable))
  {
    if accounts.None? || !Current(s.fields, s.ticks[t].generation) {
      assert forall x :: x != t ==> (InFlight(Finish(s, t), x) <==> InFlight(s, x));
    } else {
      var ids := Swept(s.fields.retries, accounts.value);
      var swept := s.(fields := s.fields.(retries := s.fields.retries - ids), events := s.events + [Dropped(ids)],
                      ticks := s.ticks[t := s.ticks[t].(accounts := accounts.value)]);
      SameFlights(s, swept, t);
      LoopKeepsOne(swept, t, 0, now, fetchable);
    }
  }

  lemma RowKeepsOne(s: State, t: nat, i: nat, row: Option<Account>, now: int, fetchable: bool)
    requires OneTick(s) && InFlight(s, t)
    ensures OneTick(RowRead(s, t, i, row, now, fetchable))
  {
    var u := RowRead(s, t, i, row, now, fetchable);
    if u == Loop(s, t, i + 1, now, fetchable) {
      LoopKeepsOne(s, t, i + 1, now, fetchable);
    } else {
      SameFlights(s, u, t);
    }
  }

  lemma TokenKeepsOne(s: State, t: nat, i: nat, id: string, token: Option<string>, now: int, fetchable: bool)
    requires OneTick(s) && InFlight(s, t)
    ensures OneTick(TokenRead(s, t, i, id, token, now, fetchable))
  {
    var u := TokenRead(s, t, i, id, token, now, fetchable);
    if u == Loop(s, t, i + 1, now, fetchable) {
      LoopKeepsOne(s, t, i + 1, now, fetchable);
    } else {
      SameFlights(s, u, t);
    }
  }

  lemma RefreshKeepsOne(s: State, t: nat, i: nat, stage: Stage, proceeds: bool, now: int, fetchable: bool)
    requires OneTick(s) && InFlight(s, t)
    ensures OneTick(Refreshed(s, t, i, stage, proceeds, now, fetchable))
  {
    var u := Refreshed(s, t, i, stage, proceeds, now, fetchable);
    if u == Loop(s, t, i + 1, now, fetchable) {
      LoopKeepsOne(s, t, i + 1, now, fetchable);
    } else {
      SameFlights(s, u, t);
    }
  }

  /** A step begins at most one call, and only while the tick it belongs to is current. */
  lemma StepCalls(s: State, a: Action)
    ensures s.calls <= Do(s, a).calls
    ensures forall k :: |s.calls| <= k < |Do(s, a).calls| ==> Lawful(Do(s, a).calls[k])
  {
  }

  lemma {:induction false} RunKeepsTicks(s: State, actions: seq<Action>)
    requires OneTick(s) && CallsLawful(s)
    ensures OneTick(Run(s, actions)) && CallsLawful(Run(s, actions))
    decreases |actions|
  {
    if actions != [] {
      StepKeepsOne(s, actions[0]);
      StepCalls(s, actions[0]);
      RunKeepsTicks(Do(s, actions[0]), actions[1..]);
    }
  }

  /**
   * Whatever `start` and `stop` do in between, at most one tick is ever in flight, and every call a tick begins, it
   * begins while the object is active and the tick's own generation is current.
   */
  lemma TicksAreSafe(start: State, actions: seq<Action>)
    requires Initial(start)
    ensures var s := Run(start, actions);
            && (forall t, u :: InFlight(s, t) && InFlight(s, u) ==> t == u)
            && (forall k :: 0 <= k < |s.calls| ==> s.calls[k].activeThen && s.calls[k].generationThen == s.calls[k].generation)
  {
    RunKeepsTicks(start, actions);
  }

  // Token attempts

  predicate Clears(e: Event, id: string) {
    match e
    case Attempt(_, _, _, _) => false
    case Succeeded(other) => other == id
    case Dropped(ids) => id in ids
    case Halted(_) => true
  }

  /** The attempt whose retry still stands for this account after `n` events; -1 if none does. */
  function Standing(events: seq<Event>, n: nat, id: string): (k: int)
    requires n <= |events|
    ensures -1 <= k < n && (k >= 0 ==> events[k].Attempt? && events[k].id == id)
  {
    if n == 0 || Clears(events[n - 1], id) then -1
    else if events[n - 1].Attempt? && events[n - 1].id == id then n - 1
    else Standing(events, n - 1, id)
  }

  /** The retries held are those that stand. */
  ghost predicate Held(retries: Retries, events: seq<Event>) {
    forall id ::
      var k := Standing(events, |events|, id);
      (id in retries <==> k >= 0)
      && (id in retries ==> retries[id] == Retry(events[k].credentials, events[k].at + DIAGNOSIS_RETRY_MS))
  }

  /** An attempt waits for the retry its account and credentials left. */
  predicate Waits(events: seq<Event>, j: nat)
    requires j < |events| && events[j].Attempt?
  {
    var k := Standing(events, j, events[j].id);
    k >= 0 && events[k].credentials == events[j].credentials ==> events[j].at >= events[k].at + DIAGNOSIS_RETRY_MS
  }

  ghost predicate AllWait(events: seq<Event>) {
    forall j :: 0 <= j < |events| && events[j].Attempt? ==> Waits(events, j)
  }

  function GenerationOf(e: Event): int {
    if e.Attempt? || e.Halted? then e.generation else 0
  }

  /** Attempts belong to the generation the last `stop` before them left, or a later one. */
  ghost predicate Generations(events: seq<Event>, generation: nat) {
    && (forall k :: 0 <= k < |events| ==> GenerationOf(events[k]) <= generation)
    && forall i, k :: 0 <= i < k < |events| && events[i].Attempt? && events[k].Halted? ==>
         events[i].generation < events[k].generation
  }

  ghost predicate EventsOk(s: State) {
    && AllWait(s.events)
    && Generations(s.events, s.fields.generation)
    && StopsFirst(s.events)
    && Held(s.fields.retries, s.events)
  }

  ghost predicate StopsFirst(events: seq<Event>) {
    forall k, j :: 0 <= k < j < |events| && events[k].Halted? && events[j].Attempt? ==>
      events[k].generation <= events[j].generation
  }

  lemma {:induction false} StandingPrefix(events: seq<Event>, more: seq<Event>, n: nat, id: string)
    requires n <= |events| && events <= more
    ensures Standing(more, n, id) == Standing(events, n, id)
  {
    if n > 0 {
      StandingPrefix(events, more, n - 1, id);
    }
  }

  lemma WaitsMore(events: seq<Event>, e: Event)
    requires AllWait(events) && (e.Attempt? ==> Waits(events + [e], |events|))
    ensures AllWait(events + [e])
  {
    forall j | 0 <= j < |events| && events[j].Attempt?
      ensures Waits(events + [e], j)
    {
      assert Waits(events, j);
      StandingPrefix(events, events + [e], j, events[j].id);
    }
  }

  /** The retries after an event, from those before it. */
  lemma HeldMore(retries: Retries, events: seq<Event>, e: Event, after: Retries)
    requires Held(retries, events)
    requires forall id :: id in after <==> (e.Attempt? && e.id == id) || (id in retries && !Clears(e, id))
    requires forall id :: id in after ==>
      after[id] == if e.Attempt? && e.id == id then Retry(e.credentials, e.at + DIAGNOSIS_RETRY_MS)
                   else if id in retries then retries[id] else after[id]
    ensures Held(after, events + [e])
  {
    forall id {
      StandingPrefix(events, events + [e], |events|, id);
    }
  }

  lemma AttemptLogs(events: seq<Event>, generation: nat, retries: Retries, a: Account, now: int)
    requires AllWait(events) && Generations(events, generation) && StopsFirst(events) && Held(retries, events)
    requires RetryDue(retries, a, now)
    ensures var e := Attempt(a.id, CredentialsOf(a), now, generation);
            AllWait(events + [e]) && Generations(events + [e], generation) && StopsFirst(events + [e])
            && Held(retries[a.id := Retry(CredentialsOf(a), now + DIAGNOSIS_RETRY_MS)], events + [e])
  {
    var e := Attempt(a.id, CredentialsOf(a), now, generation);
    StandingPrefix(events, events + [e], |events|, a.id);
    WaitsMore(events, e);
    HeldMore(retries, events, e, retries[a.id := Retry(CredentialsOf(a), now + DIAGNOSIS_RETRY_MS)]);
    forall k | 0 <= k < |events|
      ensures GenerationOf(events[k]) <= generation
    {
    }
  }

  lemma ClearLogs(events: seq<Event>, generation: nat, retries: Retries, e: Event, after: Retries, later: nat)
    requires AllWait(events) && Generations(events, generation) && StopsFirst(events) && Held(retries, events)
    requires !e.Attempt? && generation <= later && (e.Halted? ==> generation < e.generation == later)
    requires forall id :: id in after <==> id in retries && !Clears(e, id)
    requires forall id :: id in after ==> after[id] == retries[id]
    ensures AllWait(events + [e]) && Generations(events + [e], later) && StopsFirst(events + [e]) && Held(after, events + [e])
  {
    WaitsMore(events, e);
    HeldMore(retries, events, e, after);
    forall k | 0 <= k < |events|
      ensures GenerationOf(events[k]) <= generation
    {
    }
  }

  /** The part of the state the log speaks of. */
  predicate SameLog(s: State, u: State) {
    u.events == s.events && u.fields.retries == s.fields.retries && u.fields.generation == s.fields.generation
  }

  lemma LoopLogsNothing(s: State, t: nat, i: nat, now: int, fetchable: bool)
    requires At(s, t)
    ensures SameLog(s, Loop(s, t, i, now, fetchable))
  {
  }

  lemma StopLogs(s: State)
    requires EventsOk(s)
    ensures EventsOk(StopAll(s))
  {
    var g := s.fields.generation;
    ClearLogs(s.events, g, s.fields.retries, Halted(g + 1), map[], g + 1);
  }

  lemma ListLogs(s: State, t: nat, accounts: Option<seq<Account>>, now: int, fetchable: bool)
    requires EventsOk(s) && At(s, t)
    ensures EventsOk(Listed(s, t, accounts, now, fetchable))
  {
    if accounts.Some? && Current(s.fields, s.ticks[t].generation) {
      var ids := Swept(s.fields.retries, accounts.value);
      ClearLogs(s.events, s.fields.generation, s.fields.retries, Dropped(ids), s.fields.retries - ids, s.fields.generation);
      var swept := s.(fields := s.fields.(retries := s.fields.retries - ids), events := s.events + [Dropped(ids)],
                      ticks := s.ticks[t := s.ticks[t].(accounts := accounts.value)]);
      LoopLogsNothing(swept, t, 0, now, fetchable);
    }
  }

  lemma RowLogs(s: State, t: nat, i: nat, row: Option<Account>, now: int, fetchable: bool)
    requires EventsOk(s) && At(s, t)
    ensures EventsOk(RowRead(s, t, i, row, now, fetchable))
  {
    LoopLogsNothing(s, t, i + 1, now, fetchable);
    if !SameLog(s, RowRead(s, t, i, row, now, fetchable)) {
      AttemptLogs(s.events, s.fields.generation, s.fields.retries, row.value, now);
    }
  }

  lemma TokenLogs(s: State, t: nat, i: nat, id: string, token: Option<string>, now: int, fetchable: bool)
    requires EventsOk(s) && At(s, t)
    ensures EventsOk(TokenRead(s, t, i, id, token, now, fetchable))
  {
    LoopLogsNothing(s, t, i + 1, now, fetchable);
    if !SameLog(s, TokenRead(s, t, i, id, token, now, fetchable)) {
      ClearLogs(s.events, s.fields.generation, s.fields.retries, Succeeded(id), s.fields.retries - {id}, s.fields.generation);
    }
  }

  lemma StepLogs(s: State, a: Action)
    requires EventsOk(s)
    ensures EventsOk(Do(s, a))
  {
    match a {
      case StartIt =>
        assert forall k :: 0 <= k < |s.events| ==> GenerationOf(s.events[k]) <= s.fields.generation;
      case StopIt => StopLogs(s);
      case BeginTick(fetchable) => assert SameLog(s, Do(s, a));
      case GotAccounts(t, accounts, now, fetchable) => if Do(s, a) != s { ListLogs(s, t, accounts, now, fetchable); }
      case GotRow(t, row, now, fetchable) =>
        if Do(s, a) != s { RowLogs(s, t, s.ticks[t].phase.i, row, now, fetchable); }
      case GotToken(t, token, now, fetchable) =>
        if Do(s, a) != s { TokenLogs(s, t, s.ticks[t].phase.i, s.ticks[t].phase.id, token, now, fetchable); }
      case RefreshStep(t, proceeds, now, fetchable) =>
        if Do(s, a) != s {
          LoopLogsNothing(s, t, s.ticks[t].phase.i + 1, now, fetchable);
          assert SameLog(s, Do(s, a));
        }
    }
  }

  lemma {:induction false} RunKeepsEvents(s: State, actions: seq<Action>)
    requires EventsOk(s)
    ensures EventsOk(Run(s, actions))
    decreases |actions|
  {
    if actions != [] {
      StepLogs(s, actions[0]);
      RunKeepsEvents(Do(s, actions[0]), actions[1..]);
    }
  }

  /** Nothing between `i` and `j` lets the account off its retry: no token, no sweep that drops it, no other credentials. */
  predicate Unbroken(events: seq<Event>, i: nat, j: nat)
    requires i < j <= |events| && events[i].Attempt?
  {
    forall k :: i < k < j ==>
      match events[k]
      case Attempt(id, credentials, _, _) => id == events[i].id ==> credentials == events[i].credentials
      case Succeeded(id) => id != events[i].id
      case Dropped(ids) => events[i].id !in ids
      case Halted(_) => true
  }

  lemma {:induction false} RetryStands(events: seq<Event>, i: nat, j: nat)
    requires AllWait(events) && i < j <= |events| && events[i].Attempt? && Unbroken(events, i, j)
    requires forall k :: i < k < j ==> !events[k].Halted?
    ensures var k := Standing(events, j, events[i].id);
            k >= i && events[k].credentials == events[i].credentials && events[k].at >= events[i].at
  {
    if i + 1 < j {
      RetryStands(events, i, j - 1);
      if events[j - 1].Attempt? && events[j - 1].id == events[i].id {
        assert Waits(events, j - 1);
      }
    }
  }

  /**
   * Two token attempts for one account with unchanged credentials, within one generation, are at least five minutes
   * apart, unless between them a token was read, an attempt used other credentials, or a sweep saw the account gone,
   * healthy, or with other credentials.
   */
  lemma AttemptsAreApart(start: State, actions: seq<Action>, i: nat, j: nat)
    requires Initial(start)
    requires i < j < |Run(start, actions).events|
    requires var e := Run(start, actions).events;
             && e[i].Attempt? && e[j].Attempt? && e[i].generation == e[j].generation
             && e[i].id == e[j].id && e[i].credentials == e[j].credentials && Unbroken(e, i, j)
    ensures var e := Run(start, actions).events; e[j].at >= e[i].at + DIAGNOSIS_RETRY_MS
  {
    RunKeepsEvents(start, actions);
    var s := Run(start, actions);
    forall k | i < k < j
      ensures !s.events[k].Halted?
    {
    }
    RetryStands(s.events, i, j);
    assert Waits(s.events, j);
  }

  lemma {:induction false} RunMore(s: State, actions: seq<Action>, a: Action)
    ensures Run(s, actions + [a]) == Do(Run(s, actions), a)
    decreases |actions|
  {
    if actions == [] {
      assert actions + [a] == [a] && [a][1..] == [];
    } else {
      assert (actions + [a])[0] == actions[0] && (actions + [a])[1..] == actions[1..] + [a];
      RunMore(Do(s, actions[0]), actions[1..], a);
    }
  }

  /** One step drops only retries whose account its list shows gone, not needing diagnosis, or with other credentials. */
  lemma SweepStep(s: State, a: Action, id: string)
    requires |Do(s, a).events| == |s.events| + 1 && Do(s, a).events[|s.events|].Dropped?
    requires id in Do(s, a).events[|s.events|].ids
    ensures a.GotAccounts? && a.accounts.Some? && id in s.fields.retries
    ensures SweptAway(a.accounts.value, id, s.fields.retries[id])
  {
  }

  lemma LogGrows(s: State, a: Action)
    ensures s.events <= Do(s, a).events && |Do(s, a).events| <= |s.events| + 1
  {
  }

  lemma NothingYet(start: State)
    requires Initial(start)
    ensures Run(start, []).events == []
  {
  }

  /**
   * In every run a sweep drops an account's retry only after a list that shows the account gone, not needing diagnosis,
   * or with other credentials than its last standing attempt used.
   */
  lemma {:induction false} SweepDropsOnlyOvertaken(start: State, actions: seq<Action>, k: nat, id: string) returns (n: nat)
    requires Initial(start) && k < |Run(start, actions).events|
    requires Run(start, actions).events[k].Dropped? && id in Run(start, actions).events[k].ids
    ensures n < |actions| && actions[n].GotAccounts? && actions[n].accounts.Some?
    ensures var events := Run(start, actions).events; var p := Standing(events, k, id);
            && p >= 0
            && SweptAway(actions[n].accounts.value, id, Retry(events[p].credentials, events[p].at + DIAGNOSIS_RETRY_MS))
    decreases |actions|
  {
    hide Do, Run, SweptAway, Standing;
    NothingYet(start);
    var earlier, a := actions[..|actions| - 1], actions[|actions| - 1];
    assert earlier + [a] == actions;
    RunMore(start, earlier, a);
    var s := Run(start, earlier);
    LogGrows(s, a);
    if k < |s.events| {
      n := SweepDropsOnlyOvertaken(start, earlier, k, id);
    } else {
      n := |actions| - 1;
      SweepStep(s, a, id);
      RunKeepsEvents(start, earlier);
    }
    StandingPrefix(s.events, Do(s, a).events, k, id);
  }

  lemma RunTwoMore(s: State, actions: seq<Action>, a: Action, b: Action)
    ensures Run(s, actions + [a, b]) == Do(Do(Run(s, actions), a), b)
  {
    RunMore(s, actions, a);
    RunMore(s, actions + [a], b);
    assert actions + [a] + [b] == actions + [a, b];
  }

  lemma RunFourMore(s: State, actions: seq<Action>, a: Action, b: Action, c: Action, d: Action)
    ensures Run(s, actions + [a, b, c, d]) == Do(Do(Do(Do(Run(s, actions), a), b), c), d)
  {
    RunTwoMore(s, actions, a, b);
    RunTwoMore(s, actions + [a, b], c, d);
    assert actions + [a, b] + [c, d] == actions + [a, b, c, d];
  }

  /** What one tick that ends without a token leaves, when it reads `a` as its only account. */
  lemma FailedTick(s: State, a: Account, now: int)
    requires s.fields.active && !s.fields.running && Due(s.fields.retries, a, now)
    ensures var t := |s.ticks|;
            var u := Do(Do(Do(Do(s, BeginTick(true)), GotAccounts(t, Some([a]), now, true)), GotRow(t, Some(a), now, true)),
                        GotToken(t, None, now, true));
            && u.fields == s.fields.(retries := u.fields.retries) && |u.ticks| == t + 1
            && |u.events| == |s.events| + 2 && s.events <= u.events
            && u.events[|s.events| + 1] == Attempt(a.id, CredentialsOf(a), now, s.fields.generation)
  {
    var t := |s.ticks|;
    var began := Do(s, BeginTick(true));
    assert began.ticks[t] == Tick(s.fields.generation, [], AwaitAccounts);
    var listed := Do(began, GotAccounts(t, Some([a]), now, true));
    var dropped := Swept(s.fields.retries, [a]);
    assert Due(s.fields.retries - dropped, a, now);
    assert listed.ticks[t].phase == AwaitRow(0);
    var read := Do(listed, GotRow(t, Some(a), now, true));
    assert read.ticks[t].phase == AwaitToken(0, a.id);
  }

  /** A tick that sees the account healthy drops its retry. */
  lemma HealthyTick(s: State, a: Account, now: int)
    requires s.fields.active && !s.fields.running && !NeedsDiagnosis(a)
    ensures var t := |s.ticks|;
            var u := Do(Do(s, BeginTick(true)), GotAccounts(t, Some([a]), now, true));
            && u.fields == s.fields.(retries := u.fields.retries) && a.id !in u.fields.retries
            && |u.events| == |s.events| + 1 && s.events <= u.events && |u.ticks| == t + 1
  {
    var t := |s.ticks|;
    var began := Do(s, BeginTick(true));
    assert began.ticks[t] == Tick(s.fields.generation, [], AwaitAccounts);
  }

  lemma FailedRun(start: State, actions: seq<Action>, a: Account, now: int) returns (more: seq<Action>)
    requires var s := Run(start, actions); s.fields.active && !s.fields.running && Due(s.fields.retries, a, now)
    ensures var s, u := Run(start, actions), Run(start, more);
            && u.fields == s.fields.(retries := u.fields.retries)
            && |u.events| == |s.events| + 2 && s.events <= u.events
            && u.events[|s.events| + 1] == Attempt(a.id, CredentialsOf(a), now, s.fields.generation)
  {
    var s := Run(start, actions);
    var t := |s.ticks|;
    FailedTick(s, a, now);
    hide Do, Run, Due;
    RunFourMore(start, actions, BeginTick(true), GotAccounts(t, Some([a]), now, true), GotRow(t, Some(a), now, true),
                GotToken(t, None, now, true));
    more := actions + [BeginTick(true), GotAccounts(t, Some([a]), now, true), GotRow(t, Some(a), now, true),
                       GotToken(t, None, now, true)];
  }

  lemma HealthyRun(start: State, actions: seq<Action>, a: Account, now: int) returns (more: seq<Action>)
    requires var s := Run(start, actions); s.fields.active && !s.fields.running && !NeedsDiagnosis(a)
    ensures var s, u := Run(start, actions), Run(start, more);
            && u.fields == s.fields.(retries := u.fields.retries) && a.id !in u.fields.retries
            && |u.events| == |s.events| + 1 && s.events <= u.events
  {
    var s := Run(start, actions);
    var t := |s.ticks|;
    HealthyTick(s, a, now);
    hide Do, Run;
    RunTwoMore(start, actions, BeginTick(true), GotAccounts(t, Some([a]), now, true));
    more := actions + [BeginTick(true), GotAccounts(t, Some([a]), now, true)];
  }

  lemma StartedRun(start: State)
    requires Initial(start)
    ensures var s := Run(start, [StartIt]);
            && s.fields.active && !s.fields.running && s.fields.generation == 1 && s.fields.retries == map[] && s.events == []
  {
    RunMore(start, [], StartIt);
    assert [] + [StartIt] == [StartIt];
  }

  lemma DueAfresh(retries: map<string, Retry>, a: Account, now: int)
    requires Due(map[], a, now) && a.id !in retries
    ensures Due(retries, a, now)
  {
  }

  /** The spacing needs its exception: an account that looked healthy in between is tried again two minutes later. */
  lemma SweepForgets(start: State, a: Account)
    requires Initial(start) && Due(map[], a, 0) && Due(map[], a, 120_000)
    ensures exists actions ::
      var e := Run(start, actions).events;
      |e| == 5 && e[1] == Attempt(a.id, CredentialsOf(a), 0, 1) && e[4] == Attempt(a.id, CredentialsOf(a), 120_000, 1)
  {
    hide Run, Due;
    StartedRun(start);
    var one := FailedRun(start, [StartIt], a, 0);
    var two := HealthyRun(start, one, a.(paused := false), 60_000);
    DueAfresh(Run(start, two).fields.retries, a, 120_000);
    var three := FailedRun(start, two, a, 120_000);
    var e := Run(start, three).events;
    assert |e| == 5 && e[1] == Attempt(a.id, CredentialsOf(a), 0, 1) && e[4] == Attempt(a.id, CredentialsOf(a), 120_000, 1);
  }

  // What a tick that nothing interrupts does

  /** A tick begins with the account list if a profile may be fetched at all, and otherwise is over at once. */
  lemma TickBegins(s: State, fetchable: bool)
    requires s.fields.active && !s.fields.running
    ensures var t := |s.ticks|; var u := Do(s, BeginTick(fetchable));
            && |u.ticks| == t + 1 && u.ticks[t].generation == s.fields.generation && u.events == s.events
            && u.ticks[t].phase == (if fetchable then AwaitAccounts else Over)
            && u.fields == s.fields.(running := fetchable)
            && u.calls == s.calls + if fetchable then [Call(ListCall, t, s.fields.generation, true, s.fields.generation)] else []
  {
  }

  /** The tick stands at the first due account from `i` on, its row asked for; or, if there is none, it is over. */
  predicate StandsAt(s: State, t: nat, i: nat, now: int) {
    && At(s, t)
    && if exists k :: i <= k < |s.ticks[t].accounts| && Due(s.fields.retries, s.ticks[t].accounts[k], now) then
         && s.ticks[t].phase.AwaitRow? && i <= s.ticks[t].phase.i < |s.ticks[t].accounts| && s.fields.running
         && Due(s.fields.retries, s.ticks[t].accounts[s.ticks[t].phase.i], now)
         && (forall k :: i <= k < s.ticks[t].phase.i ==> !Due(s.fields.retries, s.ticks[t].accounts[k], now))
         && s.calls != [] && s.calls[|s.calls| - 1].kind == RowCall && s.calls[|s.calls| - 1].tick == t
       else s.ticks[t].phase.Over? && !s.fields.running
  }

  lemma LoopStands(s: State, t: nat, i: nat, now: int)
    requires At(s, t) && i <= |s.ticks[t].accounts| && Current(s.fields, s.ticks[t].generation) && s.fields.running
    ensures var u := Loop(s, t, i, now, true);
            && StandsAt(u, t, i, now) && u.events == s.events && u.fields == s.fields.(running := u.fields.running)
            && |u.ticks| == |s.ticks| && u.ticks[t] == s.ticks[t].(phase := u.ticks[t].phase)
  {
    hide Due;
    NextDueStops(s.fields.retries, s.ticks[t].accounts, i, now);
  }

  lemma {:induction false} NextDueStops(retries: Retries, accounts: seq<Account>, i: nat, now: int)
    requires i <= |accounts|
    ensures forall k :: i <= k < NextDue(retries, accounts, i, now) ==> !Due(retries, accounts[k], now)
    decreases |accounts| - i
  {
    if i < |accounts| && !Due(retries, accounts[i], now) {
      NextDueStops(retries, accounts, i + 1, now);
    }
  }

  /** The list arrives: what it overtakes is dropped, and the tick goes to the first due account. */
  lemma ListIsTaken(s: State, t: nat, accounts: seq<Account>, now: int)
    requires At(s, t) && s.ticks[t].phase.AwaitAccounts? && Current(s.fields, s.ticks[t].generation) && s.fields.running
    ensures var u := Do(s, GotAccounts(t, Some(accounts), now, true));
            && StandsAt(u, t, 0, now) && u.ticks[t].accounts == accounts && |u.ticks| == |s.ticks|
            && u.ticks[t].generation == s.ticks[t].generation
            && u.fields.retries == s.fields.retries - Swept(s.fields.retries, accounts)
            && u.fields.active && u.fields.generation == s.fields.generation
            && u.events == s.events + [Dropped(Swept(s.fields.retries, accounts))]
  {
    hide StandsAt, Swept, Loop;
    var swept := s.(fields := s.fields.(retries := s.fields.retries - Swept(s.fields.retries, accounts)),
                    events := s.events + [Dropped(Swept(s.fields.retries, accounts))],
                    ticks := s.ticks[t := s.ticks[t].(accounts := accounts)]);
    LoopStands(swept, t, 0, now);
  }

  /** A row that is still due is attempted: the attempt is noted for five minutes, and its token asked for. */
  lemma RowIsAttempted(s: State, t: nat, a: Account, now: int)
    requires At(s, t) && s.ticks[t].phase.AwaitRow? && Current(s.fields, s.ticks[t].generation)
    requires Due(s.fields.retries, a, now)
    ensures var u := Do(s, GotRow(t, Some(a), now, true)); var creds := Credentials(a.accessToken, a.refreshToken);
            && u.fields == s.fields.(retries := s.fields.retries[a.id := Retry(creds, now + 300_000)])
            && u.events == s.events + [Attempt(a.id, creds, now, s.fields.generation)]
            && u.ticks == s.ticks[t := s.ticks[t].(phase := AwaitToken(s.ticks[t].phase.i, a.id))]
            && u.calls == s.calls + [Call(TokenCall, t, s.ticks[t].generation, true, s.fields.generation)]
  {
    hide Due;
  }

  /** A token starts the profile read and forgets the attempt; without one the tick goes on to the next due account. */
  lemma TokenDecides(s: State, t: nat, token: Option<string>, now: int)
    requires At(s, t) && s.ticks[t].phase.AwaitToken? && Current(s.fields, s.ticks[t].generation) && s.fields.running
    requires s.ticks[t].phase.i < |s.ticks[t].accounts|
    ensures var id := s.ticks[t].phase.id; var u := Do(s, GotToken(t, token, now, true));
            if token.Some? && token.value != "" then
              && u.fields == s.fields.(retries := s.fields.retries - {id}) && u.events == s.events + [Succeeded(id)]
              && u.ticks[t].phase == AwaitRefresh(s.ticks[t].phase.i, RefreshRow)
              && u.calls == s.calls + [Call(RefreshCall(RefreshRow), t, s.ticks[t].generation, true, s.fields.generation)]
            else
              && StandsAt(u, t, s.ticks[t].phase.i + 1, now) && u.events == s.events
              && u.fields == s.fields.(running := u.fields.running)
              && |u.ticks| == |s.ticks| && u.ticks[t] == s.ticks[t].(phase := u.ticks[t].phase)
  {
    hide StandsAt, Loop;
    if token.None? || token.value == "" {
      LoopStands(s, t, s.ticks[t].phase.i + 1, now);
    }
  }

  /** The profile read takes its five awaits in turn, and then the tick goes on to the next due account. */
  lemma RefreshGoesOn(s: State, t: nat, proceeds: bool, now: int)
    requires At(s, t) && s.ticks[t].phase.AwaitRefresh? && Current(s.fields, s.ticks[t].generation) && s.fields.running
    requires s.ticks[t].phase.i < |s.ticks[t].accounts|
    ensures var AwaitRefresh(i, stage) := s.ticks[t].phase; var u := Do(s, RefreshStep(t, proceeds, now, true));
            if proceeds && !stage.RefreshStore? then
              && u.ticks[t].phase.AwaitRefresh? && u.ticks[t].phase.i == i
              && u.ticks[t].phase.stage == match stage
                                           case RefreshRow => RefreshClaim
                                           case RefreshClaim => RefreshProfile
                                           case RefreshProfile => RefreshReread
                                           case _ => RefreshStore
            else StandsAt(u, t, i + 1, now)
  {
    hide StandsAt, Loop;
    if !proceeds || s.ticks[t].phase.stage.RefreshStore? {
      LoopStands(s, t, s.ticks[t].phase.i + 1, now);
    }
  }

  /** While no profile may be fetched a tick asks for nothing more, and is over at its next answer. */
  lemma UnfetchableTickEnds(s: State, t: nat, answer: Action)
    requires At(s, t) && (answer.GotAccounts? || answer.GotRow?) && answer.t == t && !answer.fetchable
    requires if answer.GotAccounts? then s.ticks[t].phase.AwaitAccounts? else s.ticks[t].phase.AwaitRow?
    ensures var u := Do(s, answer); u.ticks[t].phase.Over? && !u.fields.running && u.calls == s.calls
  {
  }

  /** Whatever else goes on, the answer to a call of a tick that is no longer current ends it. */
  lemma OutdatedTickEnds(s: State, t: nat, accounts: Option<seq<Account>>, now: int, fetchable: bool)
    requires At(s, t) && s.ticks[t].phase.AwaitAccounts? && !Current(s.fields, s.ticks[t].generation)
    ensures var u := Do(s, GotAccounts(t, accounts, now, fetchable));
            u.ticks[t].phase.Over? && !u.fields.running && u.events == s.events && u.calls == s.calls
  {
  }

  predicate AttemptedIn(events: seq<Event>, a: Account, now: int) {
    exists k :: 0 <= k < |events| && events[k].Attempt? && events[k].id == a.id && events[k].credentials == CredentialsOf(a)
                && events[k].at == now
  }

  lemma AttemptStays(events: seq<Event>, more: seq<Event>, a: Account, now: int)
    requires events <= more && AttemptedIn(events, a, now)
    ensures AttemptedIn(more, a, now)
  {
    var k :| 0 <= k < |events| && events[k].Attempt? && events[k].id == a.id && events[k].credentials == CredentialsOf(a)
             && events[k].at == now;
    assert more[k] == events[k];
  }

  /**
   * A tick whose rows are as listed, and whose tokens do not come, attempts every account that is due. `ids` of the list
   * are distinct.
   */
  lemma {:induction false} EveryDueIsAttempted(s: State, t: nat, i: nat, now: int) returns (actions: seq<Action>)
    requires At(s, t) && StandsAt(s, t, i, now) && Current(s.fields, s.ticks[t].generation) && i <= |s.ticks[t].accounts|
    requires forall j, k :: 0 <= j < k < |s.ticks[t].accounts| ==> s.ticks[t].accounts[j].id != s.ticks[t].accounts[k].id
    ensures s.events <= Run(s, actions).events
    ensures forall k :: i <= k < |s.ticks[t].accounts| && Due(s.fields.retries, s.ticks[t].accounts[k], now) ==>
      AttemptedIn(Run(s, actions).events, s.ticks[t].accounts[k], now)
    decreases |s.ticks[t].accounts| - i
  {
    hide Due, Do;
    actions := [];
    var accounts := s.ticks[t].accounts;
    if s.ticks[t].phase.AwaitRow? && exists k :: i <= k < |accounts| && Due(s.fields.retries, accounts[k], now) {
      var j := s.ticks[t].phase.i;
      RowIsAttempted(s, t, accounts[j], now);
      var noted := Do(s, GotRow(t, Some(accounts[j]), now, true));
      TokenDecides(noted, t, None, now);
      var next := Do(noted, GotToken(t, None, now, true));
      var rest := EveryDueIsAttempted(next, t, j + 1, now);
      actions := [GotRow(t, Some(accounts[j]), now, true), GotToken(t, None, now, true)] + rest;
      TwoSteps(s, actions, rest);
      assert AttemptedIn(next.events, accounts[j], now) by {
        assert next.events[|s.events|].Attempt?;
      }
      AttemptStays(next.events, Run(s, actions).events, accounts[j], now);
      forall k | i <= k < |accounts| && Due(s.fields.retries, accounts[k], now)
        ensures AttemptedIn(Run(s, actions).events, accounts[k], now)
      {
        if k > j {
          OtherStillDue(s.fields.retries, next.fields.retries, accounts[k], now);
        }
      }
    }
  }

  lemma OtherStillDue(before: Retries, after: Retries, a: Account, now: int)
    requires a.id in before <==> a.id in after
    requires a.id in before ==> before[a.id] == after[a.id]
    ensures Due(before, a, now) == Due(after, a, now)
  {
  }

  lemma TwoSteps(s: State, actions: seq<Action>, rest: seq<Action>)
    requires |actions| >= 2 && actions[2..] == rest
    ensures Run(s, actions) == Run(Do(Do(s, actions[0]), actions[1]), rest)
  {
    hide Do;
    assert actions[1..][0] == actions[1] && actions[1..][1..] == rest;
  }
}
