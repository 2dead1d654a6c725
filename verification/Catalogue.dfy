/**
 * One format of the global catalogue, and a client's differences from it: packages/types/src/clients.ts and
 * apps/server/src/client-service.ts.
 */
module Catalogue {
  import opened Wrappers
  import opened Texts

  datatype Entry = Entry(id: string, displayName: string, target: string, accounts: Option<seq<string>>)

  /** The fields that mean the same for every client, with a canonical account pin. */
  function GlobalEntry(e: Entry): Entry {
    if e.accounts.Some? then e.(accounts := Some(SortedSet(e.accounts.value))) else e
  }

  predicate Same(a: Entry, b: Entry) {
    GlobalEntry(a) == GlobalEntry(b)
  }

  lemma GlobalEntryIdempotent(e: Entry)
    ensures GlobalEntry(GlobalEntry(e)) == GlobalEntry(e)
  {
    if e.accounts.Some? {
      SortedSetIdempotent(e.accounts.value);
    }
  }

  /** Two pins leave the same accounts: all of them, or the same ones in any order. */
  predicate SameAccounts(a: Option<seq<string>>, b: Option<seq<string>>) {
    match (a, b)
    case (None, None) => true
    case (Some(s), Some(t)) => forall x :: x in s + t ==> x in s && x in t
    case _ => false
  }

  /** Two entries mean the same for a client: only the order and repetitions in the pin may differ. */
  predicate Alike(a: Entry, b: Entry) {
    a.id == b.id && a.displayName == b.displayName && a.target == b.target && SameAccounts(a.accounts, b.accounts)
  }

  /** The canonical entry means the same, and entries that mean the same have the same canonical one. */
  lemma AlikeExactly(a: Entry, b: Entry)
    ensures Alike(GlobalEntry(a), a)
    ensures GlobalEntry(a) == GlobalEntry(b) <==> Alike(a, b)
    ensures GlobalEntry(a).accounts == GlobalEntry(b).accounts <==> SameAccounts(a.accounts, b.accounts)
  {
    if a.accounts.Some? {
      SortedSetIs(a.accounts.value);
      if b.accounts.Some? {
        SameSortedSet(a.accounts.value, b.accounts.value);
        assert SameAccounts(a.accounts, b.accounts) <==> forall x :: x in a.accounts.value <==> x in b.accounts.value;
      }
    }
  }

  datatype Delta = Delta(additions: seq<Entry>, removals: seq<string>, inheritDefault: bool, defaultModel: Option<string>)

  /** `new Map(entries.map((m) => [m.id, m])).get(id)`: the last of the first `n` with this id, or -1. */
  function Place(entries: seq<Entry>, n: nat, id: string): (k: int)
    requires n <= |entries|
    ensures -1 <= k < n
  {
    if n == 0 then -1
    else if entries[n - 1].id == id then n - 1
    else Place(entries, n - 1, id)
  }

  predicate Has(entries: seq<Entry>, id: string) {
    Place(entries, |entries|, id) >= 0
  }

  lemma {:induction false} PlaceIs(entries: seq<Entry>, n: nat, id: string)
    requires n <= |entries|
    ensures Place(entries, n, id) >= 0 ==> entries[Place(entries, n, id)].id == id
    ensures forall i :: Place(entries, n, id) < i < n ==> entries[i].id != id
  {
    if n > 0 && entries[n - 1].id != id {
      PlaceIs(entries, n - 1, id);
    }
  }

  predicate DistinctIds(entries: seq<Entry>) {
    forall i, j :: 0 <= i < j < |entries| ==> entries[i].id != entries[j].id
  }

  lemma PlaceAt(entries: seq<Entry>, i: nat)
    requires DistinctIds(entries) && i < |entries|
    ensures Place(entries, |entries|, entries[i].id) == i
  {
    PlaceIs(entries, |entries|, entries[i].id);
  }

  // What a client publishes

  datatype Provenance = Global | Override | Added
  datatype Published = Published(model: Entry, provenance: Provenance)

  /** The first `n` global entries, each replaced by the client's same-id addition and dropped when removed. */
  function FromGlobal(global: seq<Entry>, n: nat, additions: seq<Entry>, removals: seq<string>): seq<Published>
    requires n <= |global|
  {
    if n == 0 then []
    else
      var before := FromGlobal(global, n - 1, additions, removals);
      var m := global[n - 1];
      var k := Place(additions, |additions|, m.id);
      if m.id in removals then before
      else before + [if k >= 0 then Published(additions[k], Override) else Published(m, Global)]
  }

  function FromClient(global: seq<Entry>, additions: seq<Entry>, n: nat): seq<Published>
    requires n <= |additions|
  {
    if n == 0 then []
    else
      var before := FromClient(global, additions, n - 1);
      if Has(global, additions[n - 1].id) then before else before + [Published(additions[n - 1], Added)]
  }

  /** `composeGlobalCatalogue`. */
  function Compose(global: seq<Entry>, additions: seq<Entry>, removals: seq<string>): seq<Published> {
    FromGlobal(global, |global|, additions, removals) + FromClient(global, additions, |additions|)
  }

  /** The client publishes this id: the global catalogue lists it and the client does not remove it, or it adds it. */
  predicate Publishes(global: seq<Entry>, additions: seq<Entry>, removals: seq<string>, id: string) {
    if Has(global, id) then id !in removals else Has(additions, id)
  }

  predicate Lists(published: seq<Published>, id: string) {
    exists i :: 0 <= i < |published| && published[i].model.id == id
  }

  lemma ListsConcat(a: seq<Published>, b: seq<Published>, id: string)
    ensures Lists(a + b, id) <==> Lists(a, id) || Lists(b, id)
  {
    if Lists(a, id) {
      var i :| 0 <= i < |a| && a[i].model.id == id;
      assert (a + b)[i].model.id == id;
    }
    if Lists(b, id) {
      var i :| 0 <= i < |b| && b[i].model.id == id;
      assert (a + b)[|a| + i].model.id == id;
    }
  }

  lemma {:induction false} FromGlobalLists(global: seq<Entry>, n: nat, additions: seq<Entry>, removals: seq<string>, id: string)
    requires n <= |global|
    ensures Lists(FromGlobal(global, n, additions, removals), id) <==> Place(global, n, id) >= 0 && id !in removals
  {
    if n > 0 {
      FromGlobalLists(global, n - 1, additions, removals, id);
      var m := global[n - 1];
      if m.id !in removals {
        PlaceIs(additions, |additions|, m.id);
        var last := FromGlobal(global, n, additions, removals)[|FromGlobal(global, n - 1, additions, removals)|];
        ListsConcat(FromGlobal(global, n - 1, additions, removals), [last], id);
        assert Lists([last], id) <==> m.id == id by {
          assert [last][0] == last;
        }
      }
    }
  }

  lemma {:induction false} FromClientLists(global: seq<Entry>, additions: seq<Entry>, n: nat, id: string)
    requires n <= |additions|
    ensures Lists(FromClient(global, additions, n), id) <==> Place(additions, n, id) >= 0 && !Has(global, id)
  {
    if n > 0 {
      FromClientLists(global, additions, n - 1, id);
      var a := additions[n - 1];
      if !Has(global, a.id) {
        ListsConcat(FromClient(global, additions, n - 1), [Published(a, Added)], id);
        assert Lists([Published(a, Added)], id) <==> a.id == id by {
          assert [Published(a, Added)][0].model == a;
        }
      }
    }
  }

  /** The composed list holds exactly the published ids: global minus removals, plus additions. */
  lemma ComposeLists(global: seq<Entry>, additions: seq<Entry>, removals: seq<string>, id: string)
    ensures Lists(Compose(global, additions, removals), id) <==> Publishes(global, additions, removals, id)
  {
    FromGlobalLists(global, |global|, additions, removals, id);
    FromClientLists(global, additions, |additions|, id);
    ListsConcat(FromGlobal(global, |global|, additions, removals), FromClient(global, additions, |additions|), id);
  }

  // Normalizing differences

  datatype Outcome = Ok(delta: Delta) | Duplicate(id: string) | AddedAndRemoved(id: string)

  function InGlobal(global: seq<Entry>, removals: seq<string>, n: nat): seq<string>
    requires n <= |removals|
  {
    if n == 0 then []
    else InGlobal(global, removals, n - 1) + if Has(global, removals[n - 1]) then [removals[n - 1]] else []
  }

  /** The removals the global catalogue still lists, once each and sorted. */
  function Removed(global: seq<Entry>, removals: seq<string>): seq<string> {
    SortedSet(InGlobal(global, removals, |removals|))
  }

  predicate Refuses(additions: seq<Entry>, removed: seq<string>, i: nat)
    requires i < |additions|
  {
    Place(additions, i, additions[i].id) >= 0 || additions[i].id in removed
  }

  predicate CopiesGlobal(global: seq<Entry>, e: Entry) {
    var k := Place(global, |global|, e.id);
    k >= 0 && Same(global[k], e)
  }

  /** The first `n` additions that differ from their global entry. */
  function Kept(global: seq<Entry>, additions: seq<Entry>, n: nat): seq<Entry>
    requires n <= |additions|
  {
    if n == 0 then []
    else if CopiesGlobal(global, additions[n - 1]) then Kept(global, additions, n - 1)
    else Kept(global, additions, n - 1) + [GlobalEntry(additions[n - 1])]
  }

  function Normal(global: seq<Entry>, value: Delta): Delta {
    Delta(
      Kept(global, value.additions, |value.additions|), Removed(global, value.removals), value.inheritDefault,
      if value.inheritDefault then None else value.defaultModel)
  }

  predicate Accepts(global: seq<Entry>, value: Delta) {
    forall i :: 0 <= i < |value.additions| ==> !Refuses(value.additions, Removed(global, value.removals), i)
  }

  /** `normalizeDelta`, past its checks of field types. */
  method NormalizeDelta(value: Delta, global: seq<Entry>) returns (r: Outcome)
    ensures r.Ok? <==> Accepts(global, value)
    ensures r.Ok? ==> r.delta == Normal(global, value)
    ensures !r.Ok? ==> exists i :: 0 <= i < |value.additions| && value.additions[i].id == r.id
                                   && Refuses(value.additions, Removed(global, value.removals), i)
                                   && (r.Duplicate? <==> Place(value.additions, i, r.id) >= 0)
  {
    var listed: seq<string> := [];
    for i := 0 to |value.removals|
      invariant listed == InGlobal(global, value.removals, i)
    {
      if Has(global, value.removals[i]) {
        listed := listed + [value.removals[i]];
      }
    }
    var removed := SortedSet(listed);
    assert removed == Removed(global, value.removals);
    var seen: set<string> := {};
    var kept: seq<Entry> := [];
    for i := 0 to |value.additions|
      invariant forall id :: id in seen <==> Place(value.additions, i, id) >= 0
      invariant forall j :: 0 <= j < i ==> !Refuses(value.additions, removed, j)
      invariant kept == Kept(global, value.additions, i)
    {
      var addition := value.additions[i];
      if addition.id in seen {
        assert Refuses(value.additions, removed, i);
        return Duplicate(addition.id);
      }
      seen := seen + {addition.id};
      if addition.id in removed {
        assert Refuses(value.additions, removed, i);
        return AddedAndRemoved(addition.id);
      }
      if !CopiesGlobal(global, addition) {
        kept := kept + [GlobalEntry(addition)];
      }
    }
    r := Ok(Delta(kept, removed, value.inheritDefault, if value.inheritDefault then None else value.defaultModel));
  }

  /** Each kept addition is the canonical form of one that was given, in the same order. */
  lemma {:induction false} KeptPair(global: seq<Entry>, additions: seq<Entry>, n: nat, k: nat, l: nat) returns (i: nat, j: nat)
    requires n <= |additions| && k <= l < |Kept(global, additions, n)|
    ensures i <= j < n && (k < l ==> i < j)
    ensures Kept(global, additions, n)[k] == GlobalEntry(additions[i]) && !CopiesGlobal(global, additions[i])
    ensures Kept(global, additions, n)[l] == GlobalEntry(additions[j]) && !CopiesGlobal(global, additions[j])
  {
    var before := |Kept(global, additions, n - 1)|;
    if l < before {
      i, j := KeptPair(global, additions, n - 1, k, l);
    } else if k < before {
      i, j := KeptPair(global, additions, n - 1, k, k);
      j := n - 1;
    } else {
      i, j := n - 1, n - 1;
    }
  }

  lemma {:induction false} InGlobalIs(global: seq<Entry>, removals: seq<string>, n: nat, id: string)
    requires n <= |removals|
    ensures id in InGlobal(global, removals, n) <==> id in removals[..n] && Has(global, id)
  {
    if n > 0 {
      InGlobalIs(global, removals, n - 1, id);
      assert removals[..n] == removals[..n - 1] + [removals[n - 1]];
    }
  }

  lemma RemovedIs(global: seq<Entry>, removals: seq<string>, id: string)
    ensures id in Removed(global, removals) <==> id in removals && Has(global, id)
  {
    InGlobalIs(global, removals, |removals|, id);
    assert removals[..|removals|] == removals;
    SortedSetIs(InGlobal(global, removals, |removals|));
  }

  lemma AcceptedDistinct(global: seq<Entry>, value: Delta)
    requires Accepts(global, value)
    ensures DistinctIds(value.additions)
  {
    forall i, j | 0 <= i < j < |value.additions|
      ensures value.additions[i].id != value.additions[j].id
    {
      assert !Refuses(value.additions, Removed(global, value.removals), j);
      PlaceIs(value.additions, j, value.additions[j].id);
    }
  }

  /** What every stored difference satisfies. */
  ghost predicate Normalized(global: seq<Entry>, d: Delta) {
    && DistinctIds(d.additions)
    && (forall i :: 0 <= i < |d.additions| ==> d.additions[i].id !in d.removals)
    && Increasing(d.removals)
    && (forall r :: r in d.removals ==> Has(global, r))
    && forall i :: 0 <= i < |d.additions| ==>
         GlobalEntry(d.additions[i]) == d.additions[i] && !CopiesGlobal(global, d.additions[i])
  }

  /** Additions are distinct, none is removed or a copy of its global entry; removals are global, sorted and distinct. */
  lemma NormalIsNormalized(global: seq<Entry>, value: Delta)
    requires Accepts(global, value)
    ensures Normalized(global, Normal(global, value))
    ensures var r := Normal(global, value).removals; forall i, j :: 0 <= i < j < |r| ==> r[i] != r[j]
  {
    var d := Normal(global, value);
    AcceptedDistinct(global, value);
    SortedSetIs(InGlobal(global, value.removals, |value.removals|));
    IncreasingDistinct(d.removals);
    forall k, l | 0 <= k < l < |d.additions|
      ensures d.additions[k].id != d.additions[l].id
    {
      var i, j := KeptPair(global, value.additions, |value.additions|, k, l);
    }
    forall k | 0 <= k < |d.additions|
      ensures d.additions[k].id !in d.removals && GlobalEntry(d.additions[k]) == d.additions[k]
              && !CopiesGlobal(global, d.additions[k])
    {
      var i, j := KeptPair(global, value.additions, |value.additions|, k, k);
      assert !Refuses(value.additions, Removed(global, value.removals), i);
      GlobalEntryIdempotent(value.additions[i]);
    }
    SortedSetIs(InGlobal(global, value.removals, |value.removals|));
    forall r | r in d.removals
      ensures Has(global, r)
    {
      RemovedIs(global, value.removals, r);
    }
  }

  /** No addition that is stored means the same as the global entry under its id. */
  lemma NoCopyStored(global: seq<Entry>, d: Delta, i: nat, j: nat)
    requires DistinctIds(global) && Normalized(global, d) && i < |d.additions| && j < |global|
    ensures !Alike(global[j], d.additions[i])
  {
    if global[j].id == d.additions[i].id {
      PlaceAt(global, j);
      AlikeExactly(global[j], d.additions[i]);
    }
  }

  /** Normalizing again changes nothing. */
  lemma NormalizingTwice(global: seq<Entry>, value: Delta)
    requires Accepts(global, value)
    ensures Accepts(global, Normal(global, value)) && Normal(global, Normal(global, value)) == Normal(global, value)
  {
    var d := Normal(global, value);
    NormalIsNormalized(global, value);
    forall i | 0 <= i < |d.additions|
      ensures !Refuses(d.additions, Removed(global, d.removals), i)
    {
      PlaceIs(d.additions, i, d.additions[i].id);
      RemovedIs(global, d.removals, d.additions[i].id);
    }
    AllKept(global, d.additions, |d.additions|);
    assert d.additions[..|d.additions|] == d.additions;
    AllInGlobal(global, d.removals, |d.removals|);
    assert d.removals[..|d.removals|] == d.removals;
    SortedStays(d.removals);
  }

  lemma {:induction false} AllKept(global: seq<Entry>, additions: seq<Entry>, n: nat)
    requires n <= |additions|
    requires forall i :: 0 <= i < n ==> GlobalEntry(additions[i]) == additions[i] && !CopiesGlobal(global, additions[i])
    ensures Kept(global, additions, n) == additions[..n]
  {
    if n > 0 {
      AllKept(global, additions, n - 1);
      assert additions[..n] == additions[..n - 1] + [additions[n - 1]];
    }
  }

  lemma {:induction false} AllInGlobal(global: seq<Entry>, removals: seq<string>, n: nat)
    requires n <= |removals| && forall i :: 0 <= i < n ==> Has(global, removals[i])
    ensures InGlobal(global, removals, n) == removals[..n]
  {
    if n > 0 {
      AllInGlobal(global, removals, n - 1);
      assert removals[..n] == removals[..n - 1] + [removals[n - 1]];
    }
  }

  function Canonical(published: seq<Published>): seq<Entry> {
    seq(|published|, i requires 0 <= i < |published| => GlobalEntry(published[i].model))
  }

  /** Where an id's addition goes when copies of global entries are dropped. */
  lemma {:induction false} KeptPlace(global: seq<Entry>, additions: seq<Entry>, n: nat, id: string)
    requires n <= |additions| && forall i, j :: 0 <= i < j < n ==> additions[i].id != additions[j].id
    ensures var k := Place(additions, n, id);
            var kept := Kept(global, additions, n);
            var l := Place(kept, |kept|, id);
            if k >= 0 && !CopiesGlobal(global, additions[k]) then l >= 0 && kept[l] == GlobalEntry(additions[k])
            else l == -1
  {
    hide CopiesGlobal, SortedSet;
    if n > 0 {
      KeptPlace(global, additions, n - 1, id);
      PlaceIs(additions, n - 1, id);
      var before := Kept(global, additions, n - 1);
      if !CopiesGlobal(global, additions[n - 1]) {
        PlaceSplits(before, GlobalEntry(additions[n - 1]), id);
        assert Kept(global, additions, n) == before + [GlobalEntry(additions[n - 1])];
      }
    }
  }

  lemma {:induction false} PlacePrefix(a: seq<Entry>, b: seq<Entry>, n: nat, id: string)
    requires n <= |a| && n <= |b| && forall i :: 0 <= i < n ==> a[i] == b[i]
    ensures Place(a, n, id) == Place(b, n, id)
  {
    if n > 0 {
      PlacePrefix(a, b, n - 1, id);
    }
  }

  lemma PlaceSplits(before: seq<Entry>, e: Entry, id: string)
    ensures Place(before + [e], |before| + 1, id) == if e.id == id then |before| else Place(before, |before|, id)
  {
    PlacePrefix(before, before + [e], |before|, id);
  }

  /** One global entry is published from the normal form as it was, up to the canonical pin. */
  lemma NormalEntry(global: seq<Entry>, n: nat, value: Delta) returns (a: seq<Published>, b: seq<Published>)
    requires DistinctIds(global) && DistinctIds(value.additions) && n < |global|
    ensures var d := Normal(global, value);
            FromGlobal(global, n + 1, d.additions, d.removals) == FromGlobal(global, n, d.additions, d.removals) + a
    ensures FromGlobal(global, n + 1, value.additions, value.removals)
         == FromGlobal(global, n, value.additions, value.removals) + b
    ensures Canonical(a) == Canonical(b)
  {
    var m, d := global[n], Normal(global, value);
    RemovedIs(global, value.removals, m.id);
    PlaceAt(global, n);
    KeptPlace(global, value.additions, |value.additions|, m.id);
    PlaceIs(value.additions, |value.additions|, m.id);
    hide DistinctIds, Place, Kept, Removed, GlobalEntry;
    if m.id in value.removals {
      a, b := [], [];
    } else {
      var k := Place(value.additions, |value.additions|, m.id);
      var l := Place(d.additions, |d.additions|, m.id);
      a := [if l >= 0 then Published(d.additions[l], Override) else Published(m, Global)];
      b := [if k >= 0 then Published(value.additions[k], Override) else Published(m, Global)];
      if k >= 0 {
        GlobalEntryIdempotent(value.additions[k]);
        if l < 0 {
          CopyEntry(global, n, value.additions[k]);
        }
      }
      assert GlobalEntry(a[0].model) == GlobalEntry(b[0].model);
    }
  }

  lemma CopyEntry(global: seq<Entry>, n: nat, e: Entry)
    requires DistinctIds(global) && n < |global| && global[n].id == e.id && CopiesGlobal(global, e)
    ensures GlobalEntry(global[n]) == GlobalEntry(e)
  {
    PlaceAt(global, n);
  }

  lemma {:induction false} NormalFromGlobal(global: seq<Entry>, n: nat, value: Delta)
    requires DistinctIds(global) && DistinctIds(value.additions) && n <= |global|
    ensures Canonical(FromGlobal(global, n, Normal(global, value).additions, Removed(global, value.removals)))
         == Canonical(FromGlobal(global, n, value.additions, value.removals))
  {
    if n > 0 {
      NormalFromGlobal(global, n - 1, value);
      var a, b := NormalEntry(global, n - 1, value);
      hide FromGlobal, Canonical;
      hide Kept, Removed, DistinctIds;
      var d := Normal(global, value);
      CanonicalConcat(FromGlobal(global, n - 1, d.additions, d.removals), a);
      CanonicalConcat(FromGlobal(global, n - 1, value.additions, value.removals), b);
    }
  }

  lemma {:induction false} FromClientPrefix(global: seq<Entry>, a: seq<Entry>, b: seq<Entry>, n: nat)
    requires n <= |a| && n <= |b| && forall i :: 0 <= i < n ==> a[i] == b[i]
    ensures FromClient(global, a, n) == FromClient(global, b, n)
  {
    if n > 0 {
      FromClientPrefix(global, a, b, n - 1);
    }
  }

  lemma {:induction false} NormalFromClient(global: seq<Entry>, additions: seq<Entry>, n: nat)
    requires n <= |additions|
    ensures Canonical(FromClient(global, Kept(global, additions, n), |Kept(global, additions, n)|))
         == Canonical(FromClient(global, additions, n))
  {
    if n > 0 {
      NormalFromClient(global, additions, n - 1);
      var before, kept := Kept(global, additions, n - 1), Kept(global, additions, n);
      if !CopiesGlobal(global, additions[n - 1]) {
        FromClientPrefix(global, before, kept, |before|);
        GlobalEntryIdempotent(additions[n - 1]);
        var a, b := Published(GlobalEntry(additions[n - 1]), Added), Published(additions[n - 1], Added);
        CanonicalConcat(FromClient(global, before, |before|), [a]);
        CanonicalConcat(FromClient(global, additions, n - 1), [b]);
        assert Canonical([a]) == Canonical([b]);
      }
    }
  }

  /** Normalizing changes nothing a client publishes: entries that mean the same, in the same order. */
  lemma NormalPublishesSame(global: seq<Entry>, value: Delta)
    requires DistinctIds(global) && Accepts(global, value)
    ensures var d := Normal(global, value);
            var now, before := Compose(global, d.additions, d.removals), Compose(global, value.additions, value.removals);
            |now| == |before| && forall i :: 0 <= i < |now| ==> Alike(now[i].model, before[i].model)
  {
    var d := Normal(global, value);
    NormalComposesSame(global, value);
    CanonicalAlike(Compose(global, d.additions, d.removals), Compose(global, value.additions, value.removals));
  }

  lemma CanonicalAlike(a: seq<Published>, b: seq<Published>)
    requires Canonical(a) == Canonical(b)
    ensures |a| == |b| && forall i :: 0 <= i < |a| ==> Alike(a[i].model, b[i].model)
  {
    hide GlobalEntry, Alike;
    assert |Canonical(a)| == |a| && |Canonical(b)| == |b|;
    forall i | 0 <= i < |a|
      ensures Alike(a[i].model, b[i].model)
    {
      assert Canonical(a)[i] == Canonical(b)[i];
      AlikeExactly(a[i].model, b[i].model);
    }
  }

  lemma NormalComposesSame(global: seq<Entry>, value: Delta)
    requires DistinctIds(global) && Accepts(global, value)
    ensures var d := Normal(global, value);
            Canonical(Compose(global, d.additions, d.removals)) == Canonical(Compose(global, value.additions, value.removals))
  {
    var d := Normal(global, value);
    AcceptedDistinct(global, value);
    NormalFromGlobal(global, |global|, value);
    NormalFromClient(global, value.additions, |value.additions|);
    CanonicalConcat(FromGlobal(global, |global|, d.additions, d.removals), FromClient(global, d.additions, |d.additions|));
    CanonicalConcat(
      FromGlobal(global, |global|, value.additions, value.removals),
      FromClient(global, value.additions, |value.additions|));
  }

  lemma CanonicalConcat(a: seq<Published>, b: seq<Published>)
    ensures Canonical(a + b) == Canonical(a) + Canonical(b)
  {
  }
}
