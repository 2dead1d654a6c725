/** The bounded memory of apps/server/src/capacity-restored.ts that warns once about a lock polling contradicts. */
module LockContradictions {
  import opened Wrappers

  const MIN_REMAINING_MS := 1_800_000
  const MAX_ENTRIES := 64

  /** What names one lock: `until:at:reason`. */
  datatype Lock = Lock(until: int, at: Option<int>, reason: Option<string>)

  datatype Entry = Entry(account: string, lock: Lock)

  /** A long lock, not the billing floor. */
  predicate Contradicts(lock: Lock, now: int) {
    lock.reason != Some("out_of_credits") && lock.until - now > MIN_REMAINING_MS
  }

  function Position(entries: seq<Entry>, account: string): (p: nat)
    ensures p <= |entries| && (p < |entries| ==> entries[p].account == account)
    ensures forall i :: 0 <= i < p ==> entries[i].account != account
  {
    if entries == [] || entries[0].account == account then 0 else 1 + Position(entries[1..], account)
  }

  function Stored(entries: seq<Entry>, account: string): Option<Lock> {
    var p := Position(entries, account);
    if p < |entries| then Some(entries[p].lock) else None
  }

  function Without(entries: seq<Entry>, account: string): seq<Entry> {
    var p := Position(entries, account);
    if p < |entries| then entries[..p] + entries[p + 1..] else entries
  }

  /** Delete, insert at the back, then evict the oldest entry beyond the bound. */
  function Remember(entries: seq<Entry>, account: string, lock: Lock): seq<Entry> {
    var inserted := Without(entries, account) + [Entry(account, lock)];
    if |inserted| > MAX_ENTRIES then inserted[1..] else inserted
  }

  predicate Bounded(entries: seq<Entry>) {
    && |entries| <= 64
    && forall i, j :: 0 <= i < j < |entries| ==> entries[i].account != entries[j].account
  }

  lemma PositionIs(entries: seq<Entry>, p: nat)
    requires Bounded(entries) && p < |entries|
    ensures Position(entries, entries[p].account) == p
  {
  }

  lemma WithoutStaysBounded(entries: seq<Entry>, account: string)
    requires Bounded(entries)
    ensures Bounded(Without(entries, account))
    ensures forall i :: 0 <= i < |Without(entries, account)| ==> Without(entries, account)[i].account != account
    ensures Stored(Without(entries, account), account) == None
  {
  }

  lemma RememberStaysBounded(entries: seq<Entry>, account: string, lock: Lock)
    requires Bounded(entries)
    ensures Bounded(Remember(entries, account, lock))
    ensures Stored(Remember(entries, account, lock), account) == Some(lock)
  {
    WithoutStaysBounded(entries, account);
    var r := Remember(entries, account, lock);
    assert r[|r| - 1] == Entry(account, lock);
    PositionIs(r, |r| - 1);
  }

  /** The map `warnedLockContradictions`, in insertion order. */
  class WarnedLocks {
    var entries: seq<Entry>

    constructor ()
      ensures entries == []
    {
      entries := [];
    }

    /** A poll that finds no active lock. */
    method Prune(account: string)
      requires Bounded(entries)
      modifies this
      ensures Bounded(entries) && entries == Without(old(entries), account)
    {
      WithoutStaysBounded(entries, account);
      entries := Without(entries, account);
    }

    /** A poll that finds a lock its evidence may not release; `warned` is WARN rather than DEBUG. */
    method Refuse(account: string, lock: Lock, now: int) returns (warned: bool)
      requires Bounded(entries)
      modifies this
      ensures Bounded(entries)
      ensures warned <==> lock.reason != Some("out_of_credits") && lock.until > now + 30 * 60 * 1000
                          && Stored(old(entries), account) != Some(lock)
      ensures entries == if warned then Remember(old(entries), account, lock) else old(entries)
      ensures Contradicts(lock, now) ==> Stored(entries, account) == Some(lock)
    {
      warned := Contradicts(lock, now) && Stored(entries, account) != Some(lock);
      if warned {
        RememberStaysBounded(entries, account, lock);
        entries := Without(entries, account);
        entries := entries + [Entry(account, lock)];
        if |entries| > MAX_ENTRIES {
          entries := entries[1..];
        }
      }
    }
  }

  // A lock that does not change warns once

  datatype Event = Warned(account: string, lock: Lock) | Pruned(account: string)

  function After(entries: seq<Entry>, event: Event): seq<Entry> {
    match event
    case Warned(account, lock) => Remember(entries, account, lock)
    case Pruned(account) => Without(entries, account)
  }

  function Play(entries: seq<Entry>, events: seq<Event>): seq<Entry>
    decreases |events|
  {
    if events == [] then entries else Play(After(entries, events[0]), events[1..])
  }

  /** `account` remembers `lock`, and every younger entry belongs to one of `others`. */
  ghost predicate Remembers(entries: seq<Entry>, account: string, lock: Lock, others: set<string>) {
    && Bounded(entries)
    && account !in others
    && Stored(entries, account) == Some(lock)
    && forall i :: Position(entries, account) < i < |entries| ==> entries[i].account in others
  }

  lemma {:induction false} DistinctFit(entries: seq<Entry>, others: set<string>)
    requires Bounded(entries)
    requires forall i :: 0 <= i < |entries| ==> entries[i].account in others
    ensures |entries| <= |others|
  {
    if entries != [] {
      DistinctFit(entries[1..], others - {entries[0].account});
    }
  }

  lemma StepRemembers(entries: seq<Entry>, account: string, lock: Lock, others: set<string>, event: Event)
    requires Remembers(entries, account, lock, others) && |others| < 64
    requires event.Warned? ==> event.account in others
    requires event.account != account
    ensures Remembers(After(entries, event), account, lock, others)
  {
    KeptAfterWithout(entries, account, lock, others, event.account);
    if event.Warned? {
      KeptAfterInsert(Without(entries, event.account), account, lock, others, event.account, event.lock);
      WithoutStaysBounded(entries, event.account);
    }
  }

  lemma KeptAfterWithout(entries: seq<Entry>, account: string, lock: Lock, others: set<string>, gone: string)
    requires Remembers(entries, account, lock, others) && gone != account
    ensures Remembers(Without(entries, gone), account, lock, others)
  {
    WithoutStaysBounded(entries, gone);
    var p := Position(entries, account);
    var q := if Position(entries, gone) < p then p - 1 else p;
    assert Without(entries, gone)[q] == entries[p];
    PositionIs(Without(entries, gone), q);
  }

  lemma KeptAfterInsert(
    kept: seq<Entry>, account: string, lock: Lock, others: set<string>, other: string, otherLock: Lock)
    requires Remembers(kept, account, lock, others) && other in others && |others| < 64
    requires forall i :: 0 <= i < |kept| ==> kept[i].account != other
    ensures var inserted := kept + [Entry(other, otherLock)];
            Remembers(if |inserted| > MAX_ENTRIES then inserted[1..] else inserted, account, lock, others)
  {
    var inserted := kept + [Entry(other, otherLock)];
    var p := Position(kept, account);
    if |inserted| > MAX_ENTRIES {
      DistinctFit(inserted[p + 1..], others);
      assert p > 0 && inserted[1..][p - 1] == kept[p];
      PositionIs(inserted[1..], p - 1);
    } else {
      assert inserted[p] == kept[p];
      PositionIs(inserted, p);
    }
  }

  /**
   * While the account is not pruned and its lock does not change, a second warning about it needs 64 other
   * accounts to warn in between, however often each of them does.
   */
  lemma {:induction false} WarnsOnce(entries: seq<Entry>, account: string, lock: Lock, others: set<string>, events: seq<Event>)
    requires Remembers(entries, account, lock, others) && |others| < 64
    requires forall e :: e in events ==> e.account != account && (e.Warned? ==> e.account in others)
    ensures Stored(Play(entries, events), account) == Some(lock)
    decreases |events|
  {
    if events != [] {
      assert events[0] in events;
      StepRemembers(entries, account, lock, others, events[0]);
      WarnsOnce(After(entries, events[0]), account, lock, others, events[1..]);
    }
  }

  // And exactly when it warns again

  function AccountsFrom(entries: seq<Entry>, first: nat): set<string> {
    set i | first <= i < |entries| :: entries[i].account
  }

  /** The accounts whose entries are younger than this account's. */
  function Younger(entries: seq<Entry>, account: string): set<string> {
    AccountsFrom(entries, Position(entries, account) + 1)
  }

  function YoungerAfter(young: set<string>, event: Event): set<string> {
    match event
    case Warned(other, _) => young + {other}
    case Pruned(other) => young - {other}
  }

  /** At some point of the events the younger entries fill the memory. */
  predicate CrowdedOut(young: set<string>, events: seq<Event>)
    decreases |events|
  {
    if |young| >= 64 then true
    else events != [] && CrowdedOut(YoungerAfter(young, events[0]), events[1..])
  }

  lemma {:induction false} AccountsCount(entries: seq<Entry>, first: nat)
    requires Bounded(entries) && first <= |entries|
    ensures |AccountsFrom(entries, first)| == |entries| - first
    decreases |entries| - first
  {
    if first == |entries| {
      assert AccountsFrom(entries, first) == {};
    } else {
      AccountsCount(entries, first + 1);
      var rest := AccountsFrom(entries, first + 1);
      assert entries[first].account !in rest;
      assert AccountsFrom(entries, first) == rest + {entries[first].account};
    }
  }

  lemma YoungerCount(entries: seq<Entry>, account: string)
    requires Bounded(entries) && Position(entries, account) < |entries|
    ensures |Younger(entries, account)| == |entries| - Position(entries, account) - 1
  {
    AccountsCount(entries, Position(entries, account) + 1);
  }

  lemma WithoutAt(entries: seq<Entry>, gone: string)
    ensures var kept, g := Without(entries, gone), Position(entries, gone);
            && |kept| == (if g < |entries| then |entries| - 1 else |entries|)
            && forall i :: 0 <= i < |kept| ==> kept[i] == entries[if i < g then i else i + 1]
  {
  }

  /** Dropping entry `g`, if there is one, drops its account from those behind entry `p`. */
  lemma DroppedAccounts(entries: seq<Entry>, kept: seq<Entry>, p: nat, g: nat, gone: string)
    requires Bounded(entries) && p < |entries| && g <= |entries| && g != p
    requires |kept| == (if g < |entries| then |entries| - 1 else |entries|)
    requires forall i :: 0 <= i < |kept| ==> kept[i] == entries[if i < g then i else i + 1]
    requires forall i :: 0 <= i < |entries| ==> (entries[i].account == gone <==> i == g)
    ensures AccountsFrom(kept, (if g < p then p - 1 else p) + 1) == AccountsFrom(entries, p + 1) - {gone}
  {
    var q := if g < p then p - 1 else p;
    var after, before := AccountsFrom(kept, q + 1), AccountsFrom(entries, p + 1);
    forall other
      ensures other in after <==> other in before && other != gone
    {
      if other in after {
        var i :| q < i < |kept| && kept[i].account == other;
        assert entries[if i < g then i else i + 1] == kept[i];
      }
      if other in before && other != gone {
        var i :| p < i < |entries| && entries[i].account == other;
        assert kept[if i < g then i else i - 1] == entries[i];
      }
    }
  }

  lemma WithoutYounger(entries: seq<Entry>, account: string, gone: string)
    requires Bounded(entries) && Position(entries, account) < |entries| && gone != account
    ensures var kept := Without(entries, gone);
            && Stored(kept, account) == Stored(entries, account)
            && Younger(kept, account) == Younger(entries, account) - {gone}
  {
    hide Without, Position, AccountsFrom;
    var kept, p, g := Without(entries, gone), Position(entries, account), Position(entries, gone);
    WithoutStaysBounded(entries, gone);
    WithoutAt(entries, gone);
    var q := if g < p then p - 1 else p;
    assert kept[q] == entries[p];
    PositionIs(kept, q);
    DroppedAccounts(entries, kept, p, g, gone);
  }

  /** An insertion behind the account's entry, with the eviction it may cause. */
  lemma InsertYounger(kept: seq<Entry>, account: string, other: string, lock: Lock)
    requires Bounded(kept) && Position(kept, account) < |kept| && other != account
    requires forall i :: 0 <= i < |kept| ==> kept[i].account != other
    ensures var young, inserted := Younger(kept, account) + {other}, kept + [Entry(other, lock)];
            var r := if |inserted| > MAX_ENTRIES then inserted[1..] else inserted;
            if |young| >= MAX_ENTRIES then Stored(r, account) == None
            else Stored(r, account) == Stored(kept, account) && Younger(r, account) == young
  {
    var p, inserted := Position(kept, account), kept + [Entry(other, lock)];
    YoungerCount(kept, account);
    assert other !in Younger(kept, account);
    if |inserted| <= MAX_ENTRIES {
      StillYounger(kept, inserted, account, other, p, 0);
    } else if p > 0 {
      StillYounger(kept, inserted[1..], account, other, p - 1, 1);
    } else {
      assert forall i :: 0 <= i < |inserted[1..]| ==> inserted[1..][i].account != account;
    }
  }

  /** `r` holds what `kept` did from index `off` on, and `other` behind it. */
  lemma StillYounger(kept: seq<Entry>, r: seq<Entry>, account: string, other: string, q: nat, off: nat)
    requires Bounded(kept) && Position(kept, account) == q + off < |kept| && |r| == |kept| - off + 1
    requires forall i :: 0 <= i < |r| - 1 ==> r[i] == kept[i + off]
    requires r[|r| - 1].account == other != account
    ensures Stored(r, account) == Stored(kept, account) && Younger(r, account) == Younger(kept, account) + {other}
  {
    assert r[q] == kept[q + off];
    FirstAt(r, account, q);
    MovedAccounts(kept, r, other, q, off);
  }

  lemma {:induction false} FirstAt(r: seq<Entry>, account: string, q: nat)
    requires q < |r| && r[q].account == account && forall i :: 0 <= i < q ==> r[i].account != account
    ensures Position(r, account) == q
  {
    if q > 0 {
      FirstAt(r[1..], account, q - 1);
    }
  }

  lemma MovedAccounts(kept: seq<Entry>, r: seq<Entry>, other: string, q: nat, off: nat)
    requires q + off < |kept| && |r| == |kept| - off + 1
    requires forall i :: 0 <= i < |r| - 1 ==> r[i] == kept[i + off]
    requires r[|r| - 1].account == other
    ensures AccountsFrom(r, q + 1) == AccountsFrom(kept, q + off + 1) + {other}
  {
    var after, before := AccountsFrom(r, q + 1), AccountsFrom(kept, q + off + 1);
    forall x
      ensures x in after <==> x in before || x == other
    {
      if x in after {
        var i :| q < i < |r| && r[i].account == x;
        assert i < |r| - 1 ==> kept[i + off].account == x;
      }
      if x in before {
        var i :| q + off < i < |kept| && kept[i].account == x;
        assert r[i - off].account == x;
      }
      assert r[|r| - 1].account == other;
    }
  }

  lemma ForgottenStays(entries: seq<Entry>, account: string, event: Event)
    requires Stored(entries, account) == None && event.account != account
    ensures Stored(After(entries, event), account) == None
  {
  }

  lemma {:induction false} ForgottenForGood(entries: seq<Entry>, account: string, events: seq<Event>)
    requires Stored(entries, account) == None && forall e :: e in events ==> e.account != account
    ensures Stored(Play(entries, events), account) == None
    decreases |events|
  {
    if events != [] {
      assert events[0] in events;
      ForgottenStays(entries, account, events[0]);
      ForgottenForGood(After(entries, events[0]), account, events[1..]);
    }
  }

  /**
   * Whatever other accounts do, an unchanged lock is forgotten, and so warned about again, exactly if at some point 64
   * others stand behind it in the memory.
   */
  lemma {:induction false} WarnsAgainExactly(entries: seq<Entry>, account: string, events: seq<Event>)
    requires Bounded(entries) && Position(entries, account) < |entries|
    requires forall e :: e in events ==> e.account != account
    ensures Stored(Play(entries, events), account)
         == if CrowdedOut(Younger(entries, account), events) then None else Stored(entries, account)
    decreases |events|
  {
    hide Without, Position, AccountsFrom;
    YoungerCount(entries, account);
    if events != [] {
      var event := events[0];
      assert event in events;
      WithoutYounger(entries, account, event.account);
      WithoutStaysBounded(entries, event.account);
      var young := YoungerAfter(Younger(entries, account), event);
      if event.Warned? {
        RememberStaysBounded(entries, event.account, event.lock);
        InsertYounger(Without(entries, event.account), account, event.account, event.lock);
        assert Younger(entries, account) - {event.account} + {event.account} == young;
      }
      if |young| >= MAX_ENTRIES {
        ForgottenForGood(After(entries, event), account, events[1..]);
      } else {
        WarnsAgainExactly(After(entries, event), account, events[1..]);
      }
    }
  }
}
