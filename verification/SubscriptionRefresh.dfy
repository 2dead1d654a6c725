/**
 * Throttled profile reads: apps/server/src/anthropic-subscription-refresh.ts and the claim in
 * packages/database/src/repositories/account.repository.ts. Invocations on one account interleave at every `await`.
 */
module SubscriptionRefresh {
  import opened Wrappers

  const REFRESH_INTERVAL_MS := 21_600_000
  const RECHECK_INTERVAL_MS := 60_000
  const DIAGNOSIS_RETRY_MS := 300_000

  datatype Account = Account(
    id: string, anthropic: bool, accessToken: string, refreshToken: Option<string>, disabled: bool, paused: bool,
    denied: bool, statusActive: bool, checkedAt: Option<int>, fetchedAt: Option<int>)

  /** `isAnthropicSubscriptionRefreshEligible`. */
  predicate Eligible(a: Account) {
    a.anthropic && a.refreshToken.Some? && a.refreshToken.value != ""
  }

  /** `isAnthropicSubscriptionRefreshDue`. */
  predicate IsDue(a: Account, now: int, throttle: int) {
    Eligible(a) && (a.checkedAt.None? || now - a.checkedAt.value >= throttle)
  }

  /** The WHERE of `claimAnthropicSubscriptionCheck`. */
  predicate ClaimMatches(a: Account, now: int, throttle: int) {
    Eligible(a) && (a.checkedAt.None? || a.checkedAt.value <= now - throttle)
  }

  /** `anthropicSubscriptionDiagnosisThrottleMs`. */
  function DiagnosisThrottle(a: Account): int {
    if a.statusActive && a.checkedAt.Some? && a.fetchedAt.Some? && a.fetchedAt.value >= a.checkedAt.value
    then REFRESH_INTERVAL_MS else DIAGNOSIS_RETRY_MS
  }

  /** No caller can ask for a shorter window than the recheck interval. */
  function Throttle(asked: Option<int>): (t: int)
    ensures t >= RECHECK_INTERVAL_MS
  {
    var t := if asked.Some? then asked.value else REFRESH_INTERVAL_MS;
    if t < RECHECK_INTERVAL_MS then RECHECK_INTERVAL_MS else t
  }

  /** The window `observeAnthropicUsage` asks for. */
  function ObservedThrottle(firstDenial: bool, success: bool, changed: bool, current: Option<Account>): int {
    if firstDenial || (success && changed) then RECHECK_INTERVAL_MS
    else if current.Some? && current.value.paused && current.value.denied then DiagnosisThrottle(current.value)
    else REFRESH_INTERVAL_MS
  }

  /**
   * An observation asks for a minute on a first denial or on access newly restored; else, of an account paused over a
   * denial, for five minutes, or for six hours once a profile read since its last check found it active; and for six
   * hours of any other.
   */
  lemma ObservationsAsk(firstDenial: bool, success: bool, changed: bool, current: Option<Account>)
    ensures var asked := ObservedThrottle(firstDenial, success, changed, current);
            if firstDenial || (success && changed) then asked == 60_000
            else if current.Some? && current.value.paused && current.value.denied then
              var Account(_, _, _, _, _, _, _, active, checkedAt, fetchedAt) := current.value;
              var confirmed := active && checkedAt.Some? && fetchedAt.Some? && fetchedAt.value >= checkedAt.value;
              asked == if confirmed then 21_600_000 else 300_000
            else asked == 21_600_000
  {
  }

  /** An observation asks for the recheck interval only on a first denial or on access newly restored. */
  lemma ObservationsAskEnough(firstDenial: bool, success: bool, changed: bool, current: Option<Account>)
    ensures var asked := ObservedThrottle(firstDenial, success, changed, current);
            && Throttle(Some(asked)) == asked
            && (asked < DIAGNOSIS_RETRY_MS ==> firstDenial || (success && changed))
            && (asked < REFRESH_INTERVAL_MS && !firstDenial && !(success && changed) ==>
                  current.Some? && current.value.paused && current.value.denied)
  {
  }

  /**
   * The due check and the claim cannot disagree about one row: both take an Anthropic account with a refresh token,
   * never checked or not within the window.
   */
  lemma DueExactlyWhenClaimable(a: Account, now: int, throttle: int)
    ensures IsDue(a, now, throttle) <==> ClaimMatches(a, now, throttle)
    ensures IsDue(a, now, throttle)
       <==> a.anthropic && a.refreshToken !in {None, Some("")} && (a.checkedAt.Some? ==> now >= a.checkedAt.value + throttle)
  {
  }

  // Invocations

  datatype Phase =
    | Started
    | Claiming
    | Claimed(won: bool)
    | Fetching
    | Fetched(found: bool)
    | Storing
    | Done

  /** `now` is captured when the invocation starts, and may be stale or ahead by the time it is used. */
  datatype Invocation = Invocation(token: string, now: int, throttle: int, phase: Phase)

  datatype Claim = Claim(stamp: int, throttle: int, owner: nat)

  /** A stored identity, with the token it was read with. */
  datatype Identity = Identity(readWith: string, owner: nat)

  /** A store that landed, with the token the row held then; kept for the proofs. */
  datatype Stored = Stored(rowToken: string, identity: Identity)

  datatype State = State(
    account: Account, identity: Option<Identity>, invocations: seq<Invocation>, claims: seq<Claim>, fetches: seq<Claim>,
    stores: seq<Stored>)

  /**
   * `current` is the caller's `isCurrent`, and `able` whatever else may stop an invocation there: a missing row, an
   * upstream backoff, a failed fetch, a thrown error.
   */
  datatype Action =
    | Begin(token: string, now: int, asked: Option<int>)
    | ReadRow(i: nat, current: bool, able: bool)
    | TryClaim(i: nat)
    | AfterClaim(i: nat, current: bool)
    | Fetch(i: nat, found: bool)
    | Reread(i: nat, current: bool, able: bool)
    | Store(i: nat)
    | Rotate(accessToken: string, refreshToken: Option<string>)
    | Toggle(disabled: bool, paused: bool, denied: bool, statusActive: bool)

  predicate At(s: State, i: nat) {
    i < |s.invocations|
  }

  function Go(s: State, i: nat, phase: Phase): State
    requires At(s, i)
  {
    s.(invocations := s.invocations[i := s.invocations[i].(phase := phase)])
  }

  function Do(s: State, a: Action): State {
    match a
    case Begin(token, now, asked) =>
      s.(invocations := s.invocations + [Invocation(token, now, Throttle(asked), Started)])
    case ReadRow(i, current, able) =>
      if !At(s, i) || !s.invocations[i].phase.Started? then s
      else
        var v := s.invocations[i];
        if current && able && v.token != "" && !s.account.disabled && IsDue(s.account, v.now, v.throttle)
        then Go(s, i, Claiming) else Go(s, i, Done)
    case TryClaim(i) =>
      if !At(s, i) || !s.invocations[i].phase.Claiming? then s
      else
        var v := s.invocations[i];
        if ClaimMatches(s.account, v.now, v.throttle) then
          Go(s, i, Claimed(true)).(account := s.account.(checkedAt := Some(v.now)),
                                   claims := s.claims + [Claim(v.now, v.throttle, i)])
        else Go(s, i, Claimed(false))
    case AfterClaim(i, current) =>
      if !At(s, i) || !s.invocations[i].phase.Claimed? then s
      else if s.invocations[i].phase.won && current then
        Go(s, i, Fetching).(fetches := s.fetches + [Claim(s.invocations[i].now, s.invocations[i].throttle, i)])
      else Go(s, i, Done)
    case Fetch(i, found) =>
      if !At(s, i) || !s.invocations[i].phase.Fetching? then s else Go(s, i, Fetched(found))
    case Reread(i, current, able) =>
      if !At(s, i) || !s.invocations[i].phase.Fetched? then s
      else if s.invocations[i].phase.found && current && able && Eligible(s.account) then Go(s, i, Storing)
      else Go(s, i, Done)
    case Store(i) =>
      if !At(s, i) || !s.invocations[i].phase.Storing? then s
      else
        var t := Go(s, i, Done);
        if s.account.accessToken == s.invocations[i].token then
          var identity := Identity(s.invocations[i].token, i);
          t.(identity := Some(identity), stores := s.stores + [Stored(s.account.accessToken, identity)])
        else t
    case Rotate(accessToken, refreshToken) =>
      s.(account := s.account.(accessToken := accessToken, refreshToken := refreshToken))
    case Toggle(disabled, paused, denied, statusActive) =>
      s.(account := s.account.(disabled := disabled, paused := paused, denied := denied, statusActive := statusActive))
  }

  function Run(s: State, actions: seq<Action>): State
    decreases |actions|
  {
    if actions == [] then s else Run(Do(s, actions[0]), actions[1..])
  }

  /** A run does one more action after the others. */
  lemma {:induction false} RunMore(s: State, actions: seq<Action>, a: Action)
    ensures Run(s, actions + [a]) == Do(Run(s, actions), a)
    decreases |actions|
  {
    if actions == [] {
      assert actions + [a] == [a] && [a][1..] == [];
    } else {
      assert (actions + [a])[0] == actions[0] && (actions + [a])[1..] == actions[1..] + [a];
      RunMore(Do(s, actions[0]), actions[1..], a);
    }
  }

  predicate Initial(s: State) {
    s.invocations == [] && s.claims == [] && s.fetches == [] && s.stores == []
  }

  /** Each claim is later than the one before by at least its own window. */
  predicate Spaced(claims: seq<Claim>) {
    forall k :: 0 <= k < |claims| ==>
      && claims[k].throttle >= RECHECK_INTERVAL_MS
      && (k > 0 ==> claims[k].stamp - claims[k - 1].stamp >= claims[k].throttle)
  }

  predicate HasClaimed(p: Phase) {
    (p.Claimed? && p.won) || p.Fetching? || p.Fetched? || p.Storing?
  }

  predicate ClaimOf(c: Claim, v: Invocation, i: nat) {
    c == Claim(v.now, v.throttle, i)
  }

  /** A claim stands in the log under its invocation, once. */
  ghost predicate Logged(s: State, i: nat)
    requires At(s, i)
  {
    var v := s.invocations[i];
    && v.throttle >= RECHECK_INTERVAL_MS
    && (HasClaimed(v.phase) ==> exists k :: 0 <= k < |s.claims| && ClaimOf(s.claims[k], v, i))
    && (v.phase.Started? || v.phase.Claiming? || v.phase == Claimed(false) ==> forall k :: 0 <= k < |s.claims| ==> s.claims[k].owner != i)
    && (v.phase.Started? || v.phase.Claiming? || v.phase.Claimed? ==> forall k :: 0 <= k < |s.fetches| ==> s.fetches[k].owner != i)
  }

  ghost predicate Inv(s: State) {
    && Spaced(s.claims)
    && (s.claims != [] ==> s.account.checkedAt == Some(s.claims[|s.claims| - 1].stamp))
    && (forall i :: 0 <= i < |s.invocations| ==> Logged(s, i))
    && (forall k :: 0 <= k < |s.claims| ==> s.claims[k].owner < |s.invocations|)
    && (forall k :: 0 <= k < |s.fetches| ==> s.fetches[k] in s.claims)
    && forall j, k :: 0 <= j < k < |s.fetches| ==> s.fetches[j].owner != s.fetches[k].owner
  }

  lemma LoggedKept(s: State, t: State, i: nat)
    requires At(s, i) && At(t, i) && Logged(s, i) && t.invocations[i] == s.invocations[i]
    requires s.claims <= t.claims && forall k :: |s.claims| <= k < |t.claims| ==> t.claims[k].owner != i
    requires s.fetches <= t.fetches && forall k :: |s.fetches| <= k < |t.fetches| ==> t.fetches[k].owner != i
    ensures Logged(t, i)
  {
    if HasClaimed(s.invocations[i].phase) {
      var k :| 0 <= k < |s.claims| && ClaimOf(s.claims[k], s.invocations[i], i);
      assert ClaimOf(t.claims[k], t.invocations[i], i);
    }
  }

  lemma BeginKeeps(s: State, v: Invocation)
    requires Inv(s) && v.phase.Started? && v.throttle >= RECHECK_INTERVAL_MS
    ensures Inv(s.(invocations := s.invocations + [v]))
  {
    var t := s.(invocations := s.invocations + [v]);
    forall i | 0 <= i < |s.invocations|
      ensures Logged(t, i)
    {
      LoggedKept(s, t, i);
    }
    forall k | 0 <= k < |s.fetches|
      ensures s.fetches[k].owner < |s.invocations|
    {
      assert s.fetches[k] in s.claims;
    }
  }

  /** Another writer's change to the row leaves the stamp alone. */
  lemma AccountMoves(s: State, account: Account)
    requires Inv(s) && account.checkedAt == s.account.checkedAt
    ensures Inv(s.(account := account))
  {
    OthersKept(s, s.(account := account), |s.invocations|);
  }

  lemma StepKeeps(s: State, a: Action)
    requires Inv(s)
    ensures Inv(Do(s, a))
  {
    hide Inv, Eligible, IsDue, ClaimMatches;
    var t := Do(s, a);
    match a {
      case Begin(token, now, asked) => BeginKeeps(s, Invocation(token, now, Throttle(asked), Started));
      case TryClaim(i) => ClaimKeeps(s, i);
      case AfterClaim(i, current) => ReadKeeps(s, i, current);
      case ReadRow(i, current, able) => if t != s { PlainMove(s, t, i); }
      case Fetch(i, found) => if t != s { PlainMove(s, t, i); }
      case Reread(i, current, able) => if t != s { PlainMove(s, t, i); }
      case Store(i) => if t != s { PlainMove(s, t, i); }
      case Rotate(accessToken, refreshToken) => AccountMoves(s, t.account);
      case Toggle(disabled, paused, denied, statusActive) => AccountMoves(s, t.account);
    }
  }

  lemma OthersKept(s: State, t: State, moved: nat)
    requires Inv(s) && |t.invocations| == |s.invocations|
    requires forall i :: 0 <= i < |s.invocations| && i != moved ==> t.invocations[i] == s.invocations[i]
    requires s.claims <= t.claims && forall k :: |s.claims| <= k < |t.claims| ==> t.claims[k].owner == moved
    requires s.fetches <= t.fetches && forall k :: |s.fetches| <= k < |t.fetches| ==> t.fetches[k].owner == moved
    ensures forall i :: 0 <= i < |s.invocations| && i != moved ==> Logged(t, i)
  {
    forall i | 0 <= i < |s.invocations| && i != moved
      ensures Logged(t, i)
    {
      LoggedKept(s, t, i);
    }
  }

  /** A move that neither claims nor reads. */
  lemma PlainMove(s: State, t: State, i: nat)
    requires Inv(s) && At(s, i) && t.claims == s.claims && t.fetches == s.fetches && t.account.checkedAt == s.account.checkedAt
    requires At(t, i) && t.invocations == s.invocations[i := t.invocations[i]]
    requires t.invocations[i] == s.invocations[i].(phase := t.invocations[i].phase)
    requires s.invocations[i].phase.Started? ==> t.invocations[i].phase.Claiming? || t.invocations[i].phase.Done?
    requires !s.invocations[i].phase.Started? ==>
      && HasClaimed(s.invocations[i].phase)
      && !(t.invocations[i].phase.Started? || t.invocations[i].phase.Claiming? || t.invocations[i].phase.Claimed?)
    ensures Inv(t)
  {
    OthersKept(s, t, i);
    assert Logged(s, i);
    if HasClaimed(s.invocations[i].phase) {
      var k :| 0 <= k < |s.claims| && ClaimOf(s.claims[k], s.invocations[i], i);
      assert ClaimOf(t.claims[k], t.invocations[i], i);
    }
  }

  lemma ClaimKeeps(s: State, i: nat)
    requires Inv(s)
    ensures Inv(Do(s, TryClaim(i)))
  {
    var t := Do(s, TryClaim(i));
    if t != s {
      OthersKept(s, t, i);
      assert Logged(s, i);
      if t.claims != s.claims {
        assert ClaimOf(t.claims[|s.claims|], t.invocations[i], i);
      }
    }
  }

  lemma ReadKeeps(s: State, i: nat, current: bool)
    requires Inv(s)
    ensures Inv(Do(s, AfterClaim(i, current)))
  {
    hide Spaced;
    var t := Do(s, AfterClaim(i, current));
    if t != s {
      OthersKept(s, t, i);
      assert Logged(s, i);
      if t.fetches != s.fetches {
        var k :| 0 <= k < |s.claims| && ClaimOf(s.claims[k], s.invocations[i], i);
        assert ClaimOf(t.claims[k], t.invocations[i], i);
        assert t.fetches[|s.fetches|] == s.claims[k];
      }
    }
  }

  lemma {:induction false} RunKeeps(s: State, actions: seq<Action>)
    requires Inv(s)
    ensures Inv(Run(s, actions))
    decreases |actions|
  {
    if actions != [] {
      StepKeeps(s, actions[0]);
      RunKeeps(Do(s, actions[0]), actions[1..]);
    }
  }

  // What every run guarantees

  /** Claims strictly increase, a recheck interval apart at least, even when `now` was captured out of order. */
  lemma ClaimsAreSpaced(start: State, actions: seq<Action>)
    requires Initial(start)
    ensures Spaced(Run(start, actions).claims)
  {
    RunKeeps(start, actions);
  }

  /** Each profile read has a claim of its own. */
  lemma ReadsAreClaimed(start: State, actions: seq<Action>)
    requires Initial(start)
    ensures var s := Run(start, actions);
            && (forall k :: 0 <= k < |s.fetches| ==> s.fetches[k] in s.claims)
            && forall j, k :: 0 <= j < k < |s.fetches| ==> s.fetches[j].owner != s.fetches[k].owner
  {
    RunKeeps(start, actions);
  }

  lemma {:induction false} SpacedApart(claims: seq<Claim>, i: nat, j: nat)
    requires Spaced(claims) && i <= j < |claims|
    ensures claims[j].stamp - claims[i].stamp >= RECHECK_INTERVAL_MS * (j - i)
  {
    if i < j {
      SpacedApart(claims, i, j - 1);
    }
  }

  /** How many of the first `n` claims are stamped in [a, b]. */
  function Within(claims: seq<Claim>, n: nat, a: int, b: int): nat
    requires n <= |claims|
  {
    if n == 0 then 0 else Within(claims, n - 1, a, b) + if a <= claims[n - 1].stamp <= b then 1 else 0
  }

  /** From claim `i` on, the claims in [a, b] fill at most the time up to `b`, and up to the last claim seen. */
  predicate Spans(claims: seq<Claim>, n: nat, a: int, b: int, i: nat)
    requires n <= |claims|
  {
    && i < n && a <= claims[i].stamp <= b
    && (Within(claims, n, a, b) - 1) * RECHECK_INTERVAL_MS <= b - claims[i].stamp
    && (claims[n - 1].stamp <= b ==>
          (Within(claims, n, a, b) - 1) * RECHECK_INTERVAL_MS <= claims[n - 1].stamp - claims[i].stamp)
  }

  lemma {:induction false} WithinSpan(claims: seq<Claim>, n: nat, a: int, b: int) returns (i: nat)
    requires Spaced(claims) && n <= |claims|
    ensures Within(claims, n, a, b) > 0 ==> Spans(claims, n, a, b, i)
  {
    i := 0;
    if n > 0 {
      i := WithinSpan(claims, n - 1, a, b);
      if Within(claims, n - 1, a, b) == 0 {
        i := n - 1;
      }
    }
  }

  /** At most one claim, and so one profile read, per recheck interval of any span, and one more. */
  lemma AtMostOnePerInterval(start: State, actions: seq<Action>, a: int, b: int)
    requires Initial(start) && a <= b
    ensures var s := Run(start, actions); Within(s.claims, |s.claims|, a, b) <= (b - a) / RECHECK_INTERVAL_MS + 1
    ensures var s := Run(start, actions); Within(s.fetches, |s.fetches|, a, b) <= (b - a) / RECHECK_INTERVAL_MS + 1
  {
    RunKeeps(start, actions);
    var s := Run(start, actions);
    var i := WithinSpan(s.claims, |s.claims|, a, b);
    ReadsWithin(s, a, b);
  }

  function StampedSet(claims: seq<Claim>, n: nat, a: int, b: int): set<Claim>
    requires n <= |claims|
  {
    if n == 0 then {}
    else StampedSet(claims, n - 1, a, b) + if a <= claims[n - 1].stamp <= b then {claims[n - 1]} else {}
  }

  lemma {:induction false} StampedIs(claims: seq<Claim>, n: nat, a: int, b: int)
    requires n <= |claims|
    ensures forall c :: c in StampedSet(claims, n, a, b) <==>
      a <= c.stamp <= b && exists k :: 0 <= k < n && claims[k] == c
  {
    if n > 0 {
      StampedIs(claims, n - 1, a, b);
    }
  }

  lemma {:induction false} StampedCount(claims: seq<Claim>, n: nat, a: int, b: int)
    requires n <= |claims| && forall j, k :: 0 <= j < k < |claims| ==> claims[j] != claims[k]
    ensures |StampedSet(claims, n, a, b)| == Within(claims, n, a, b)
  {
    if n > 0 {
      StampedCount(claims, n - 1, a, b);
      StampedIs(claims, n - 1, a, b);
    }
  }

  lemma {:induction false} SubsetCard(r: set<Claim>, c: set<Claim>)
    requires r <= c
    ensures |r| <= |c|
  {
    if x :| x in r {
      SubsetCard(r - {x}, c - {x});
    }
  }

  lemma ReadsWithin(s: State, a: int, b: int)
    requires Inv(s)
    ensures Within(s.fetches, |s.fetches|, a, b) <= Within(s.claims, |s.claims|, a, b)
  {
    forall j, k | 0 <= j < k < |s.claims|
      ensures s.claims[j] != s.claims[k]
    {
      SpacedApart(s.claims, j, k);
    }
    StampedIs(s.fetches, |s.fetches|, a, b);
    StampedIs(s.claims, |s.claims|, a, b);
    StampedCount(s.fetches, |s.fetches|, a, b);
    StampedCount(s.claims, |s.claims|, a, b);
    SubsetCard(StampedSet(s.fetches, |s.fetches|, a, b), StampedSet(s.claims, |s.claims|, a, b));
  }

  // Stores

  predicate HasRead(s: State, i: nat) {
    exists k :: 0 <= k < |s.fetches| && s.fetches[k].owner == i
  }

  /** From its read on an invocation stands in the log of reads, and it has stored nothing until it is done. */
  predicate StoreLogged(s: State, i: nat)
    requires At(s, i)
  {
    var phase := s.invocations[i].phase;
    && (phase.Fetching? || phase.Fetched? || phase.Storing? ==> HasRead(s, i))
    && (!phase.Done? ==> forall k :: 0 <= k < |s.stores| ==> s.stores[k].identity.owner != i)
  }

  /** The row held the token the identity was read with, by an invocation that began with it and has read. */
  predicate StoredWell(s: State, stored: Stored) {
    && stored.rowToken == stored.identity.readWith
    && At(s, stored.identity.owner)
    && s.invocations[stored.identity.owner].token == stored.identity.readWith
    && HasRead(s, stored.identity.owner)
  }

  /** `first` is the identity the row held before any store. */
  ghost predicate StoresOk(s: State, first: Option<Identity>) {
    && (forall i :: 0 <= i < |s.invocations| ==> StoreLogged(s, i))
    && (forall k :: 0 <= k < |s.stores| ==> StoredWell(s, s.stores[k]))
    && (forall j, k :: 0 <= j < k < |s.stores| ==> s.stores[j].identity.owner != s.stores[k].identity.owner)
    && s.identity == if s.stores == [] then first else Some(s.stores[|s.stores| - 1].identity)
  }

  /** What other steps leave alone. */
  predicate Extends(s: State, t: State) {
    && |s.invocations| <= |t.invocations| && s.fetches <= t.fetches
    && forall i :: 0 <= i < |s.invocations| ==> t.invocations[i].token == s.invocations[i].token
  }

  lemma HasReadKept(s: State, t: State, i: nat)
    requires Extends(s, t) && HasRead(s, i)
    ensures HasRead(t, i)
  {
    var k :| 0 <= k < |s.fetches| && s.fetches[k].owner == i;
    assert t.fetches[k].owner == i;
  }

  /** A step without a store keeps the log of stores sound if it moves each invocation on properly. */
  lemma QuietStep(s: State, t: State, first: Option<Identity>)
    requires StoresOk(s, first) && Extends(s, t) && t.stores == s.stores && t.identity == s.identity
    requires forall i :: 0 <= i < |s.invocations| ==>
      && (s.invocations[i].phase.Done? ==> t.invocations[i].phase.Done?)
      && (t.invocations[i].phase.Fetching? || t.invocations[i].phase.Fetched? || t.invocations[i].phase.Storing? ==>
            || s.invocations[i].phase.Fetching? || s.invocations[i].phase.Fetched? || s.invocations[i].phase.Storing?
            || HasRead(t, i))
    requires forall i :: |s.invocations| <= i < |t.invocations| ==> t.invocations[i].phase.Started?
    ensures StoresOk(t, first)
  {
    forall i | 0 <= i < |t.invocations|
      ensures StoreLogged(t, i)
    {
      if i < |s.invocations| {
        assert StoreLogged(s, i);
        if HasRead(s, i) {
          HasReadKept(s, t, i);
        }
      } else {
        forall k | 0 <= k < |s.stores|
          ensures s.stores[k].identity.owner != i
        {
          assert StoredWell(s, s.stores[k]);
        }
      }
    }
    forall k | 0 <= k < |t.stores|
      ensures StoredWell(t, t.stores[k])
    {
      assert StoredWell(s, s.stores[k]);
      HasReadKept(s, t, s.stores[k].identity.owner);
    }
  }

  lemma StoreKeeps(s: State, i: nat, first: Option<Identity>)
    requires StoresOk(s, first)
    ensures StoresOk(Do(s, Store(i)), first)
  {
    var t := Do(s, Store(i));
    if t != s {
      assert StoreLogged(s, i);
      forall j | 0 <= j < |t.invocations|
        ensures StoreLogged(t, j)
      {
        assert StoreLogged(s, j);
      }
      forall k | 0 <= k < |t.stores|
        ensures StoredWell(t, t.stores[k])
      {
        if k < |s.stores| {
          assert StoredWell(s, s.stores[k]);
        }
      }
    }
  }

  lemma StepKeepsStores(s: State, a: Action, first: Option<Identity>)
    requires StoresOk(s, first)
    ensures StoresOk(Do(s, a), first)
  {
    hide StoresOk, Eligible, IsDue, ClaimMatches;
    var t := Do(s, a);
    match a {
      case Store(i) => StoreKeeps(s, i, first);
      case AfterClaim(i, current) =>
        if |t.fetches| > |s.fetches| {
          assert t.fetches[|s.fetches|].owner == i;
        }
        QuietStep(s, t, first);
      case _ => QuietStep(s, t, first);
    }
  }

  lemma {:induction false} RunKeepsStores(s: State, actions: seq<Action>, first: Option<Identity>)
    requires StoresOk(s, first)
    ensures StoresOk(Run(s, actions), first)
    decreases |actions|
  {
    if actions != [] {
      StepKeepsStores(s, actions[0], first);
      RunKeepsStores(Do(s, actions[0]), actions[1..], first);
    }
  }

  /**
   * In every run the row's identity is the last one stored, if any; each was stored while the row held the token it was
   * read with, by an invocation that read a profile with that token, and no invocation stored twice.
   */
  lemma StoredWithCurrentToken(start: State, actions: seq<Action>)
    requires Initial(start)
    ensures var s := Run(start, actions);
            && s.identity == (if s.stores == [] then start.identity else Some(s.stores[|s.stores| - 1].identity))
            && (forall k :: 0 <= k < |s.stores| ==> StoredWell(s, s.stores[k]))
            && (forall j, k :: 0 <= j < k < |s.stores| ==> s.stores[j].identity.owner != s.stores[k].identity.owner)
  {
    RunKeepsStores(start, actions, start.identity);
  }

  // What an invocation that nothing stops comes to

  /**
   * Where an invocation goes on and where it is over: at its row, at the answer to its claim, and at the row read again
   * after the profile.
   */
  lemma GoesOnExactly(s: State, i: nat, current: bool, able: bool)
    requires At(s, i)
    ensures var v := s.invocations[i]; var t := Do(s, ReadRow(i, current, able));
            v.phase.Started? ==>
              t.invocations[i].phase
              == if current && able && v.token != "" && !s.account.disabled && IsDue(s.account, v.now, v.throttle)
                 then Claiming else Done
    ensures var v := s.invocations[i]; var t := Do(s, AfterClaim(i, current));
            v.phase.Claimed? ==>
              && t.invocations[i].phase == (if v.phase.won && current then Fetching else Done)
              && t.fetches == s.fetches + if v.phase.won && current then [Claim(v.now, v.throttle, i)] else []
    ensures var v := s.invocations[i]; var t := Do(s, Reread(i, current, able));
            v.phase.Fetched? ==>
              t.invocations[i].phase
              == if v.phase.found && current && able && s.account.anthropic && s.account.refreshToken !in {None, Some("")}
                 then Storing else Done
  {
    hide IsDue;
  }

  /** A claim stamps the row with the invocation's instant exactly when the row is due; otherwise it is lost. */
  lemma ClaimStamps(s: State, i: nat)
    requires At(s, i) && s.invocations[i].phase.Claiming?
    ensures var v := s.invocations[i]; var t := Do(s, TryClaim(i));
            if IsDue(s.account, v.now, v.throttle) then
              && t.account == s.account.(checkedAt := Some(v.now)) && t.claims == s.claims + [Claim(v.now, v.throttle, i)]
              && t.invocations[i].phase == Claimed(true)
            else t.account == s.account && t.claims == s.claims && t.invocations[i].phase == Claimed(false)
  {
  }

  /** A store lands exactly if the row still holds the token the profile was read with. */
  lemma StoreLands(s: State, i: nat)
    requires At(s, i) && s.invocations[i].phase.Storing?
    ensures var t := Do(s, Store(i)); var token := s.invocations[i].token;
            && t.account == s.account && t.invocations[i].phase.Done?
            && if s.account.accessToken == token
               then t.identity == Some(Identity(token, i)) && t.stores == s.stores + [Stored(token, Identity(token, i))]
               else t.identity == s.identity && t.stores == s.stores
  {
  }

  /** The six steps of one invocation, each proceeding. */
  function Steps(i: nat): seq<Action> {
    [ReadRow(i, true, true), TryClaim(i), AfterClaim(i, true), Fetch(i, true), Reread(i, true, true), Store(i)]
  }

  /**
   * An invocation that nothing interrupts, on a row that is due and enabled and holds its token, claims the read, makes
   * it and stores what it read.
   */
  lemma UndisturbedStores(s: State, i: nat)
    requires At(s, i) && s.invocations[i].phase.Started? && s.invocations[i].token != ""
    requires !s.account.disabled && s.account.accessToken == s.invocations[i].token
    requires IsDue(s.account, s.invocations[i].now, s.invocations[i].throttle)
    ensures var v := s.invocations[i]; var t := Run(s, Steps(i));
            && t.account == s.account.(checkedAt := Some(v.now)) && t.identity == Some(Identity(v.token, i))
            && t.claims == s.claims + [Claim(v.now, v.throttle, i)] && t.fetches == s.fetches + [Claim(v.now, v.throttle, i)]
  {
    var v := s.invocations[i];
    DueExactlyWhenClaimable(s.account, v.now, v.throttle);
    DueIsEligible(s.account, v.now, v.throttle);
    hide IsDue, ClaimMatches, Eligible;
    var claiming := Go(s, i, Claiming);
    assert Do(s, ReadRow(i, true, true)) == claiming;
    var claimed := Do(claiming, TryClaim(i));
    assert claimed.invocations[i] == v.(phase := Claimed(true)) && claimed.stores == s.stores && claimed.fetches == s.fetches
        && claimed.claims == s.claims + [Claim(v.now, v.throttle, i)]
        && claimed.account == s.account.(checkedAt := Some(v.now));
    ReadAndStored(claimed, i);
    SixSteps(s, Steps(i));
  }

  lemma ReadAndStored(s: State, i: nat)
    requires At(s, i) && s.invocations[i].phase == Claimed(true) && Eligible(s.account)
    requires s.account.accessToken == s.invocations[i].token
    ensures var v := s.invocations[i];
            var t := Do(Do(Do(Do(s, AfterClaim(i, true)), Fetch(i, true)), Reread(i, true, true)), Store(i));
            && t.account == s.account && t.claims == s.claims && t.identity == Some(Identity(v.token, i))
            && t.fetches == s.fetches + [Claim(v.now, v.throttle, i)]
  {
    hide Eligible, IsDue, ClaimMatches;
    var v := s.invocations[i];
    var fetching := Do(s, AfterClaim(i, true));
    assert fetching.invocations[i] == v.(phase := Fetching);
    var fetched := Do(fetching, Fetch(i, true));
    assert fetched.invocations[i] == v.(phase := Fetched(true));
    var storing := Do(fetched, Reread(i, true, true));
    assert storing.invocations[i] == v.(phase := Storing);
  }

  lemma DueIsEligible(a: Account, now: int, throttle: int)
    requires IsDue(a, now, throttle)
    ensures Eligible(a) && Eligible(a.(checkedAt := Some(now)))
  {
  }

  lemma SixSteps(s: State, a: seq<Action>)
    requires |a| == 6
    ensures Run(s, a) == Do(Do(Do(Do(Do(Do(s, a[0]), a[1]), a[2]), a[3]), a[4]), a[5])
  {
    hide Do;
    var s1 := Do(s, a[0]);
    var s2 := Do(s1, a[1]);
    var s3 := Do(s2, a[2]);
    var s4 := Do(s3, a[3]);
    var s5 := Do(s4, a[4]);
    assert Run(s, a) == Run(s1, a[1..]);
    assert Run(s1, a[1..]) == Run(s2, a[2..]) by { assert a[1..][1..] == a[2..]; }
    assert Run(s2, a[2..]) == Run(s3, a[3..]) by { assert a[2..][1..] == a[3..]; }
    assert Run(s3, a[3..]) == Run(s4, a[4..]) by { assert a[3..][1..] == a[4..]; }
    assert Run(s4, a[4..]) == Run(s5, a[5..]) by { assert a[4..][1..] == a[5..]; }
    assert Run(s5, a[5..]) == Run(Do(s5, a[5]), []) by { assert a[5..][0] == a[5] && a[5..][1..] == []; }
  }
}
