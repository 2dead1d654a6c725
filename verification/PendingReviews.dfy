/** The bounded map of pending reviews: `trimPending` of apps/server/src/client-service.ts. */
module PendingReviews {

  const CLIENT_CAP := 128

  datatype Kind = Single | Bulk(clients: nat) | Global

  datatype Pending = Pending(token: string, kind: Kind, expires: int)

  /** What a review counts towards the cap. */
  function Held(p: Pending): nat {
    if p.kind.Bulk? then p.kind.clients else 1
  }

  function Total(entries: seq<Pending>): nat {
    if entries == [] then 0 else Held(entries[0]) + Total(entries[1..])
  }

  ghost predicate DistinctTokens(entries: seq<Pending>) {
    forall i, j :: 0 <= i < j < |entries| ==> entries[i].token != entries[j].token
  }

  predicate HoldsGlobal(entries: seq<Pending>, token: string) {
    exists i :: 0 <= i < |entries| && entries[i].token == token && entries[i].kind.Global?
  }

  /** Expired, or a global review that the one just stored replaces. */
  predicate Stale(p: Pending, stored: string, global: bool, now: int) {
    p.expires < now || (p.token != stored && p.kind.Global? && global)
  }

  function Live(entries: seq<Pending>, stored: string, global: bool, now: int): seq<Pending> {
    if entries == [] then []
    else (if Stale(entries[0], stored, global, now) then [] else [entries[0]]) + Live(entries[1..], stored, global, now)
  }

  /** The entries left when every one before `k` but `stored` is dropped. */
  function From(entries: seq<Pending>, stored: string, k: nat): seq<Pending>
    requires k <= |entries|
  {
    Only(entries[..k], stored) + entries[k..]
  }

  function Only(entries: seq<Pending>, stored: string): seq<Pending> {
    if entries == [] then []
    else (if entries[0].token == stored then [entries[0]] else []) + Only(entries[1..], stored)
  }

  lemma {:induction false} TotalConcat(a: seq<Pending>, b: seq<Pending>)
    ensures Total(a + b) == Total(a) + Total(b)
  {
    if a == [] {
      assert a + b == b;
    } else {
      assert (a + b)[0] == a[0] && (a + b)[1..] == a[1..] + b;
      TotalConcat(a[1..], b);
    }
  }

  lemma {:induction false} OnlyConcat(a: seq<Pending>, b: seq<Pending>, stored: string)
    ensures Only(a + b, stored) == Only(a, stored) + Only(b, stored)
  {
    if a == [] {
      assert a + b == b;
    } else {
      OnlyConcat(a[1..], b, stored);
      var first := if a[0].token == stored then [a[0]] else [];
      assert (a + b)[1..] == a[1..] + b;
      assert Only(a + b, stored) == first + Only(a[1..] + b, stored) by {
        assert (a + b)[0] == a[0];
      }
      assert first + (Only(a[1..], stored) + Only(b, stored)) == first + Only(a[1..], stored) + Only(b, stored);
    }
  }

  lemma FromNext(entries: seq<Pending>, stored: string, k: nat)
    requires k < |entries|
    ensures From(entries, stored, k + 1) == if entries[k].token == stored then From(entries, stored, k)
                                            else Only(entries[..k], stored) + entries[k + 1..]
    ensures Total(From(entries, stored, k))
         == Total(From(entries, stored, k + 1)) + if entries[k].token == stored then 0 else Held(entries[k])
  {
    var before, rest := Only(entries[..k], stored), entries[k + 1..];
    assert entries[..k + 1] == entries[..k] + [entries[k]];
    OnlyConcat(entries[..k], [entries[k]], stored);
    assert entries[k..] == [entries[k]] + rest;
    assert Only([entries[k]], stored) == if entries[k].token == stored then [entries[k]] else [];
    TotalConcat(before, [entries[k]] + rest);
    TotalConcat([entries[k]], rest);
    TotalConcat(before, rest);
    assert before + [entries[k]] + rest == before + ([entries[k]] + rest);
  }

  lemma {:induction false} LiveConcat(a: seq<Pending>, b: seq<Pending>, stored: string, global: bool, now: int)
    ensures Live(a + b, stored, global, now) == Live(a, stored, global, now) + Live(b, stored, global, now)
  {
    if a == [] {
      assert a + b == b;
    } else {
      assert (a + b)[0] == a[0] && (a + b)[1..] == a[1..] + b;
      LiveConcat(a[1..], b, stored, global, now);
    }
  }

  lemma LiveNext(entries: seq<Pending>, i: nat, stored: string, global: bool, now: int)
    requires i < |entries|
    ensures Live(entries[..i + 1], stored, global, now)
         == Live(entries[..i], stored, global, now) + if Stale(entries[i], stored, global, now) then [] else [entries[i]]
  {
    hide Stale;
    assert entries[..i + 1] == entries[..i] + [entries[i]];
    LiveConcat(entries[..i], [entries[i]], stored, global, now);
    assert [entries[i]][1..] == [];
    assert Live([entries[i]], stored, global, now) == if Stale(entries[i], stored, global, now) then [] else [entries[i]];
  }

  /** The cap holds, or only the stored review is left; and dropping one entry fewer would have broken the cap. */
  ghost predicate CutAt(live: seq<Pending>, stored: string, k: nat) {
    && k <= |live|
    && (Total(From(live, stored, k)) <= 128 || From(live, stored, k) == From(live, stored, |live|))
    && (k > 0 ==> live[k - 1].token != stored && Total(From(live, stored, k)) + Held(live[k - 1]) > 128)
  }

  class Reviews {
    /** In insertion order, as a JavaScript Map keeps them. */
    var pending: seq<Pending>

    constructor ()
      ensures pending == []
    {
      pending := [];
    }

    /** Drop what is stale, then oldest first, sparing the review just stored, until the cap holds. */
    method TrimPending(stored: string, now: int)
      modifies this
      ensures ghost var live := Live(old(pending), stored, HoldsGlobal(old(pending), stored), now);
              exists k :: CutAt(live, stored, k) && pending == From(live, stored, k)
    {
      DropStale(stored, now);
      ghost var k := DropOldest(stored);
    }

    method DropStale(stored: string, now: int)
      modifies this
      ensures pending == Live(old(pending), stored, HoldsGlobal(old(pending), stored), now)
    {
      var entries := pending;
      var global := HoldsGlobal(entries, stored);
      pending := [];
      assert Live(entries[..0], stored, global, now) == [];
      hide HoldsGlobal, Stale, Live;
      for i := 0 to |entries|
        invariant pending == Live(entries[..i], stored, global, now)
      {
        LiveNext(entries, i, stored, global, now);
        if !Stale(entries[i], stored, global, now) {
          pending := pending + [entries[i]];
        }
      }
      assert entries[..|entries|] == entries;
    }

    method SumHeld() returns (total: nat)
      ensures total == Total(pending)
    {
      total := 0;
      for i := 0 to |pending|
        invariant total == Total(pending[..i])
      {
        assert pending[..i + 1] == pending[..i] + [pending[i]];
        TotalConcat(pending[..i], [pending[i]]);
        total := total + Held(pending[i]);
      }
      assert pending[..|pending|] == pending;
    }

    method DropOldest(stored: string) returns (ghost cut: nat)
      modifies this
      ensures CutAt(old(pending), stored, cut) && pending == From(old(pending), stored, cut)
    {
      hide Only, Total, From, Held;
      var live := pending;
      var total := SumHeld();
      FromNone(live, stored);
      cut := 0;
      for i := 0 to |live|
        invariant cut <= i && pending == From(live, stored, cut) == From(live, stored, i)
        invariant total == Total(pending)
        invariant cut > 0 ==> live[cut - 1].token != stored && total + Held(live[cut - 1]) > CLIENT_CAP
      {
        if total <= CLIENT_CAP {
          return;
        }
        FromNext(live, stored, i);
        if live[i].token != stored {
          total := total - Held(live[i]);
          pending := From(live, stored, i + 1);
          cut := i + 1;
        }
      }
    }
  }

  lemma FromNone(live: seq<Pending>, stored: string)
    ensures From(live, stored, 0) == live
  {
    assert live[..0] == [] && live[0..] == live;
  }

  lemma {:induction false} OnlyIs(entries: seq<Pending>, stored: string)
    requires DistinctTokens(entries)
    ensures |Only(entries, stored)| <= 1
    ensures (forall i :: 0 <= i < |entries| ==> entries[i].token != stored) ==> Only(entries, stored) == []
    ensures forall i :: 0 <= i < |entries| && entries[i].token == stored ==> Only(entries, stored) == [entries[i]]
  {
    if entries != [] {
      OnlyIs(entries[1..], stored);
      forall i | 0 <= i < |entries| && entries[i].token == stored
        ensures Only(entries, stored) == [entries[i]]
      {
        if i > 0 {
          assert entries[1..][i - 1] == entries[i];
        } else {
          assert forall j :: 0 <= j < |entries[1..]| ==> entries[1..][j] == entries[j + 1];
        }
      }
    }
  }

  /** As long as the stored review fits the cap by itself, the cap holds after every trim. */
  lemma CapHolds(live: seq<Pending>, stored: string, k: nat)
    requires DistinctTokens(live) && CutAt(live, stored, k)
    requires forall i :: 0 <= i < |live| && live[i].token == stored ==> Held(live[i]) <= 128
    ensures Total(From(live, stored, k)) <= 128
  {
    OnlyIs(live, stored);
    assert live[..|live|] == live && live[|live|..] == [];
    if i :| 0 <= i < |live| && live[i].token == stored {
      assert Only(live, stored) == [live[i]];
    }
  }

  /** The stored review stays, and of the others exactly the newest stay. */
  lemma WhatStays(live: seq<Pending>, stored: string, k: nat, i: nat)
    requires DistinctTokens(live) && k <= |live| && i < |live|
    ensures live[i] in From(live, stored, k) <==> i >= k || live[i].token == stored
  {
    var early := live[..k];
    assert forall j :: 0 <= j < k ==> early[j] == live[j];
    OnlyFrom(early, stored);
    if i >= k {
      assert live[k..][i - k] == live[i];
    } else {
      OnlyIs(early, stored);
      assert early[i] == live[i];
      assert forall j :: k <= j < |live| ==> live[j] != live[i];
    }
  }

  lemma {:induction false} OnlyFrom(entries: seq<Pending>, stored: string)
    ensures forall p :: p in Only(entries, stored) ==> p.token == stored && p in entries
  {
    if entries != [] {
      OnlyFrom(entries[1..], stored);
    }
  }

  /** A review counts as the clients it is for: those of a bulk one, and one for any other. */
  lemma HeldIs(p: Pending)
    ensures Total([p]) == match p.kind case Single => 1 case Bulk(clients) => clients case Global => 1
  {
    assert [p][1..] == [];
  }

  /**
   * What the cap is applied to: every entry that has not expired, but for global reviews other than the stored one when
   * that is global too.
   */
  lemma {:induction false} LiveIs(entries: seq<Pending>, stored: string, global: bool, now: int, p: Pending)
    ensures p in Live(entries, stored, global, now)
       <==> p in entries && now <= p.expires && !(global && p.kind == Global && p.token != stored)
  {
    if entries != [] {
      LiveIs(entries[1..], stored, global, now, p);
    }
  }

  lemma StoredGlobal(entries: seq<Pending>, stored: string)
    ensures HoldsGlobal(entries, stored) <==> exists p :: p in entries && p.token == stored && p.kind == Global
  {
    if p :| p in entries && p.token == stored && p.kind == Global {
      var i :| 0 <= i < |entries| && entries[i] == p;
    }
  }
}
