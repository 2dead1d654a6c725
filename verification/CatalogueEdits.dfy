/** Bulk operations on one format: `subscriberEdit` and the plain edit path of `bulkReview` (apps/server/src/client-service.ts). */
module CatalogueEdits {
  import opened Wrappers
  import opened Texts
  import opened Catalogue

  // The differences a subscriber keeps

  /** `removals` is a JavaScript Set: distinct, in insertion order. */
  datatype Draft = Draft(additions: seq<Entry>, removals: seq<string>)

  function WithoutEntry(entries: seq<Entry>, n: nat, id: string): seq<Entry>
    requires n <= |entries|
  {
    if n == 0 then []
    else if entries[n - 1].id == id then WithoutEntry(entries, n - 1, id)
    else WithoutEntry(entries, n - 1, id) + [entries[n - 1]]
  }

  function WithoutText(s: seq<string>, n: nat, x: string): seq<string>
    requires n <= |s|
  {
    if n == 0 then []
    else if s[n - 1] == x then WithoutText(s, n - 1, x)
    else WithoutText(s, n - 1, x) + [s[n - 1]]
  }

  function Remove(global: seq<Entry>, d: Draft, id: string): Draft {
    Draft(
      WithoutEntry(d.additions, |d.additions|, id),
      if Has(global, id) && id !in d.removals then d.removals + [id] else d.removals)
  }

  function Add(global: seq<Entry>, d: Draft, model: Entry): Draft {
    if Has(d.additions, model.id) || (Has(global, model.id) && model.id !in d.removals) then d
    else if Has(global, model.id) then d.(removals := WithoutText(d.removals, |d.removals|, model.id))
    else d.(additions := d.additions + [GlobalEntry(model)])
  }

  function RemoveAll(global: seq<Entry>, d: Draft, remove: seq<string>, n: nat): Draft
    requires n <= |remove|
  {
    if n == 0 then d else Remove(global, RemoveAll(global, d, remove, n - 1), remove[n - 1])
  }

  function AddAll(global: seq<Entry>, d: Draft, add: seq<Entry>, n: nat): Draft
    requires n <= |add|
  {
    if n == 0 then d else Add(global, AddAll(global, d, add, n - 1), add[n - 1])
  }

  function Edited(global: seq<Entry>, delta: Delta, remove: seq<string>, add: seq<Entry>): Delta {
    var d := AddAll(global, RemoveAll(global, Draft(delta.additions, delta.removals), remove, |remove|), add, |add|);
    delta.(additions := d.additions, removals := Removed(global, d.removals))
  }

  /** `subscriberEdit` in `edit` mode. */
  method SubscriberEdit(global: seq<Entry>, delta: Delta, remove: seq<string>, add: seq<Entry>) returns (r: Delta)
    ensures r == Edited(global, delta, remove, add)
  {
    var d := Draft(delta.additions, delta.removals);
    for i := 0 to |remove|
      invariant d == RemoveAll(global, Draft(delta.additions, delta.removals), remove, i)
    {
      d := Remove(global, d, remove[i]);
    }
    ghost var removed := d;
    for i := 0 to |add|
      invariant d == AddAll(global, removed, add, i)
    {
      d := Add(global, d, add[i]);
    }
    r := delta.(additions := d.additions, removals := Removed(global, d.removals));
  }

  predicate Shows(global: seq<Entry>, d: Draft, id: string) {
    Publishes(global, d.additions, d.removals, id)
  }

  /** A global id both overridden and removed: adding it back does nothing, since an addition already has it. */
  predicate Stuck(global: seq<Entry>, d: Draft, id: string) {
    Has(global, id) && Has(d.additions, id) && id in d.removals
  }

  lemma {:induction false} WithoutEntryIs(entries: seq<Entry>, n: nat, id: string, x: string)
    requires n <= |entries|
    ensures var r := WithoutEntry(entries, n, id);
            && (Has(r, x) <==> Place(entries, n, x) >= 0 && x != id)
            && forall i :: 0 <= i < |r| ==> r[i] in entries
  {
    if n > 0 {
      WithoutEntryIs(entries, n - 1, id, x);
      if entries[n - 1].id != id {
        PlaceSplits(WithoutEntry(entries, n - 1, id), entries[n - 1], x);
      }
    }
  }

  lemma {:induction false} WithoutTextIs(s: seq<string>, n: nat, x: string, y: string)
    requires n <= |s|
    ensures y in WithoutText(s, n, x) <==> y in s[..n] && y != x
  {
    if n > 0 {
      WithoutTextIs(s, n - 1, x, y);
      assert s[..n] == s[..n - 1] + [s[n - 1]];
    }
  }

  lemma RemoveShows(global: seq<Entry>, d: Draft, id: string, x: string)
    ensures Shows(global, Remove(global, d, id), x) <==> Shows(global, d, x) && x != id
    ensures Stuck(global, Remove(global, d, id), x) <==> Stuck(global, d, x) && x != id
  {
    WithoutEntryIs(d.additions, |d.additions|, id, x);
  }

  lemma AddShows(global: seq<Entry>, d: Draft, model: Entry, x: string)
    ensures Shows(global, Add(global, d, model), x) <==> Shows(global, d, x) || (x == model.id && !Stuck(global, d, x))
    ensures Stuck(global, Add(global, d, model), x) <==> Stuck(global, d, x)
  {
    WithoutTextIs(d.removals, |d.removals|, model.id, x);
    assert d.removals[..|d.removals|] == d.removals;
    PlaceSplits(d.additions, GlobalEntry(model), x);
  }

  predicate Named(add: seq<Entry>, n: nat, id: string)
    requires n <= |add|
  {
    Place(add, n, id) >= 0
  }

  lemma {:induction false} RemoveAllIs(global: seq<Entry>, d: Draft, remove: seq<string>, n: nat, x: string)
    requires n <= |remove|
    ensures Shows(global, RemoveAll(global, d, remove, n), x) <==> Shows(global, d, x) && x !in remove[..n]
    ensures Stuck(global, RemoveAll(global, d, remove, n), x) <==> Stuck(global, d, x) && x !in remove[..n]
  {
    hide Shows, Stuck, Remove;
    if n > 0 {
      RemoveAllIs(global, d, remove, n - 1, x);
      RemoveShows(global, RemoveAll(global, d, remove, n - 1), remove[n - 1], x);
      assert remove[..n] == remove[..n - 1] + [remove[n - 1]];
    }
  }

  lemma {:induction false} AddAllIs(global: seq<Entry>, d: Draft, add: seq<Entry>, n: nat, x: string)
    requires n <= |add|
    ensures Shows(global, AddAll(global, d, add, n), x)
       <==> Shows(global, d, x) || (Named(add, n, x) && !Stuck(global, d, x))
    ensures Stuck(global, AddAll(global, d, add, n), x) <==> Stuck(global, d, x)
  {
    if n > 0 {
      AddAllIs(global, d, add, n - 1, x);
      AddShows(global, AddAll(global, d, add, n - 1), add[n - 1], x);
    }
  }

  /** What an edit of any differences publishes, whatever global catalogue they were written against. */
  lemma EditPublishesExactly(global: seq<Entry>, delta: Delta, remove: seq<string>, add: seq<Entry>, x: string)
    ensures var r := Edited(global, delta, remove, add); var d := Draft(delta.additions, delta.removals);
            Publishes(global, r.additions, r.removals, x)
            <==> || (Publishes(global, delta.additions, delta.removals, x) && x !in remove)
                 || (Named(add, |add|, x) && (x in remove || !Stuck(global, d, x)))
  {
    var d := Draft(delta.additions, delta.removals);
    RemoveAllIs(global, d, remove, |remove|, x);
    assert remove[..|remove|] == remove;
    var removed := RemoveAll(global, d, remove, |remove|);
    AddAllIs(global, removed, add, |add|, x);
    RemovedIs(global, AddAll(global, removed, add, |add|).removals, x);
  }

  /** Stored differences are never stuck, even once the global catalogue has moved on from the one they were stored under. */
  lemma StoredNeverStuck(stored: seq<Entry>, global: seq<Entry>, delta: Delta, x: string)
    requires Normalized(stored, delta)
    ensures !Stuck(global, Draft(delta.additions, delta.removals), x)
  {
    PlaceIs(delta.additions, |delta.additions|, x);
  }

  /** After an edit a client publishes what it did, less the removed ids, plus the added ones. */
  lemma EditPublishes(
    stored: seq<Entry>, global: seq<Entry>, delta: Delta, remove: seq<string>, add: seq<Entry>, x: string)
    requires Normalized(stored, delta)
    ensures var r := Edited(global, delta, remove, add);
            Publishes(global, r.additions, r.removals, x)
            <==> (Publishes(global, delta.additions, delta.removals, x) && x !in remove) || Named(add, |add|, x)
  {
    EditPublishesExactly(global, delta, remove, add, x);
    StoredNeverStuck(stored, global, delta, x);
  }

  lemma {:induction false} RemoveAllKeeps(global: seq<Entry>, d: Draft, remove: seq<string>, n: nat, i: nat)
    requires n <= |remove| && i < |RemoveAll(global, d, remove, n).additions|
    ensures RemoveAll(global, d, remove, n).additions[i] in d.additions
  {
    if n > 0 {
      var before := RemoveAll(global, d, remove, n - 1);
      WithoutEntryIs(before.additions, |before.additions|, remove[n - 1], "");
      assert RemoveAll(global, d, remove, n).additions[i] in before.additions;
      var j :| 0 <= j < |before.additions| && before.additions[j] == RemoveAll(global, d, remove, n).additions[i];
      RemoveAllKeeps(global, d, remove, n - 1, j);
    }
  }

  lemma {:induction false} AddAllOverrides(global: seq<Entry>, d: Draft, add: seq<Entry>, n: nat, i: nat)
    requires n <= |add| && i < |AddAll(global, d, add, n).additions|
    requires Has(global, AddAll(global, d, add, n).additions[i].id)
    ensures AddAll(global, d, add, n).additions[i] in d.additions
  {
    if n > 0 {
      var before := AddAll(global, d, add, n - 1);
      if i < |before.additions| {
        AddAllOverrides(global, d, add, n - 1, i);
      }
    }
  }

  /** An edit creates no override: every addition under a global id was one before. */
  lemma EditCreatesNoOverride(global: seq<Entry>, delta: Delta, remove: seq<string>, add: seq<Entry>, i: nat)
    requires i < |Edited(global, delta, remove, add).additions|
    requires Has(global, Edited(global, delta, remove, add).additions[i].id)
    ensures Edited(global, delta, remove, add).additions[i] in delta.additions
  {
    var d := Draft(delta.additions, delta.removals);
    var removed := RemoveAll(global, d, remove, |remove|);
    AddAllOverrides(global, removed, add, |add|, i);
    var j :| 0 <= j < |removed.additions| && removed.additions[j] == Edited(global, delta, remove, add).additions[i];
    RemoveAllKeeps(global, d, remove, |remove|, j);
  }

  // The list a client without the global catalogue keeps

  function Filtered(models: seq<Entry>, n: nat, dropped: seq<string>): seq<Entry>
    requires n <= |models|
  {
    if n == 0 then []
    else if models[n - 1].id in dropped then Filtered(models, n - 1, dropped)
    else Filtered(models, n - 1, dropped) + [models[n - 1]]
  }

  function Pushed(kept: seq<Entry>, add: seq<Entry>, n: nat): seq<Entry>
    requires n <= |add|
  {
    if n == 0 then kept
    else if Has(kept, add[n - 1].id) then Pushed(kept, add, n - 1)
    else Pushed(kept, add, n - 1) + [add[n - 1]]
  }

  function ListEdited(models: seq<Entry>, remove: seq<string>, add: seq<Entry>): seq<Entry> {
    Pushed(Filtered(models, |models|, remove), add, |add|)
  }

  /** The edit path for a plain list; a default no longer listed is cleared. */
  method ListEdit(models: seq<Entry>, default: Option<string>, remove: seq<string>, add: seq<Entry>)
    returns (after: seq<Entry>, newDefault: Option<string>)
    ensures after == ListEdited(models, remove, add)
    ensures newDefault == if default.Some? && !Has(after, default.value) then None else default
  {
    var kept: seq<Entry> := [];
    for i := 0 to |models|
      invariant kept == Filtered(models, i, remove)
    {
      if models[i].id !in remove {
        kept := kept + [models[i]];
      }
    }
    after := kept;
    for i := 0 to |add|
      invariant after == Pushed(kept, add, i)
    {
      if !Has(kept, add[i].id) {
        after := after + [add[i]];
      }
    }
    newDefault := if default.Some? && !Has(after, default.value) then None else default;
  }

  lemma {:induction false} FilteredHas(models: seq<Entry>, n: nat, dropped: seq<string>, x: string)
    requires n <= |models|
    ensures Has(Filtered(models, n, dropped), x) <==> Place(models, n, x) >= 0 && x !in dropped
  {
    if n > 0 {
      FilteredHas(models, n - 1, dropped, x);
      PlaceSplits(Filtered(models, n - 1, dropped), models[n - 1], x);
    }
  }

  lemma {:induction false} PushedHas(kept: seq<Entry>, add: seq<Entry>, n: nat, x: string)
    requires n <= |add|
    ensures Has(Pushed(kept, add, n), x) <==> Has(kept, x) || Named(add, n, x)
  {
    if n > 0 {
      PushedHas(kept, add, n - 1, x);
      PlaceSplits(Pushed(kept, add, n - 1), add[n - 1], x);
    }
  }

  /** Editing the differences agrees with editing the published list, exactly but for an added id that is stuck. */
  lemma EditsAgreeExactly(global: seq<Entry>, delta: Delta, models: seq<Entry>, remove: seq<string>, add: seq<Entry>, x: string)
    requires Has(models, x) <==> Publishes(global, delta.additions, delta.removals, x)
    ensures var r := Edited(global, delta, remove, add);
            (Has(ListEdited(models, remove, add), x) <==> Publishes(global, r.additions, r.removals, x))
            <==> !(Named(add, |add|, x) && x !in remove && Stuck(global, Draft(delta.additions, delta.removals), x))
  {
    EditPublishesExactly(global, delta, remove, add, x);
    FilteredHas(models, |models|, remove, x);
    PushedHas(Filtered(models, |models|, remove), add, |add|, x);
  }

  /** And stored differences are never stuck. */
  lemma EditsAgree(
    stored: seq<Entry>, global: seq<Entry>, delta: Delta, models: seq<Entry>, remove: seq<string>, add: seq<Entry>, x: string)
    requires Normalized(stored, delta)
    requires Has(models, x) <==> Publishes(global, delta.additions, delta.removals, x)
    ensures var r := Edited(global, delta, remove, add);
            Has(ListEdited(models, remove, add), x) <==> Publishes(global, r.additions, r.removals, x)
  {
    EditsAgreeExactly(global, delta, models, remove, add, x);
    StoredNeverStuck(stored, global, delta, x);
  }

  // Replacing what a subscriber publishes

  /** Global ids the list leaves out, unless the client was only skipping them. */
  function LeftOut(global: seq<Entry>, n: nat, list: seq<Entry>, skipped: set<string>, previous: seq<string>): seq<string>
    requires n <= |global|
  {
    if n == 0 then []
    else
      var id := global[n - 1].id;
      LeftOut(global, n - 1, list, skipped, previous)
      + if !Has(list, id) && (id !in skipped || id in previous) then [id] else []
  }

  /** `globalDeltaFromList`. */
  function FromList(global: seq<Entry>, previous: seq<string>, list: seq<Entry>, skipped: set<string>): Draft {
    Draft(Kept(global, list, |list|), SortedSet(LeftOut(global, |global|, list, skipped, previous)))
  }

  lemma {:induction false} LeftOutIs(
    global: seq<Entry>, n: nat, list: seq<Entry>, skipped: set<string>, previous: seq<string>, x: string)
    requires n <= |global|
    ensures x in LeftOut(global, n, list, skipped, previous)
       <==> Place(global, n, x) >= 0 && !Has(list, x) && (x !in skipped || x in previous)
  {
    if n > 0 {
      LeftOutIs(global, n - 1, list, skipped, previous, x);
    }
  }

  /** The entry a published id stands for. */
  function EntryFor(global: seq<Entry>, additions: seq<Entry>, id: string): Entry
    requires Has(global, id) || Has(additions, id)
  {
    var k := Place(additions, |additions|, id);
    if k >= 0 then additions[k] else global[Place(global, |global|, id)]
  }

  /** What `Compose` lists under an id is its entry. */
  lemma {:induction false} FromGlobalEntry(global: seq<Entry>, n: nat, additions: seq<Entry>, removals: seq<string>, i: nat)
    requires DistinctIds(global) && n <= |global| && i < |FromGlobal(global, n, additions, removals)|
    ensures var p := FromGlobal(global, n, additions, removals)[i];
            Has(global, p.model.id) && p.model == EntryFor(global, additions, p.model.id)
  {
    if i < |FromGlobal(global, n - 1, additions, removals)| {
      FromGlobalEntry(global, n - 1, additions, removals, i);
    } else {
      PlaceAt(global, n - 1);
      PlaceIs(additions, |additions|, global[n - 1].id);
    }
  }

  lemma {:induction false} FromClientEntry(global: seq<Entry>, additions: seq<Entry>, n: nat, i: nat)
    requires DistinctIds(additions) && n <= |additions| && i < |FromClient(global, additions, n)|
    ensures var p := FromClient(global, additions, n)[i];
            Has(additions, p.model.id) && p.model == EntryFor(global, additions, p.model.id)
  {
    if i < |FromClient(global, additions, n - 1)| {
      FromClientEntry(global, additions, n - 1, i);
    } else {
      PlaceAt(additions, n - 1);
    }
  }

  lemma ComposeEntry(global: seq<Entry>, additions: seq<Entry>, removals: seq<string>, i: nat)
    requires DistinctIds(global) && DistinctIds(additions) && i < |Compose(global, additions, removals)|
    ensures var p := Compose(global, additions, removals)[i];
            (Has(global, p.model.id) || Has(additions, p.model.id)) && p.model == EntryFor(global, additions, p.model.id)
  {
    var first := FromGlobal(global, |global|, additions, removals);
    if i < |first| {
      FromGlobalEntry(global, |global|, additions, removals, i);
    } else {
      FromClientEntry(global, additions, |additions|, i - |first|);
    }
  }

  /**
   * The derived differences publish every listed entry as listed, and beyond the list only global entries the client
   * was skipping and had not removed.
   */
  lemma ReplacePublishes(global: seq<Entry>, previous: seq<string>, list: seq<Entry>, skipped: set<string>, x: string)
    requires DistinctIds(global) && DistinctIds(list)
    ensures var d := FromList(global, previous, list, skipped);
            && (Publishes(global, d.additions, d.removals, x)
                <==> Has(list, x) || (Has(global, x) && x in skipped && x !in previous))
            && (Has(list, x) ==>
                  && (Has(global, x) || Has(d.additions, x))
                  && Alike(EntryFor(global, d.additions, x), list[Place(list, |list|, x)]))
  {
    var d := FromList(global, previous, list, skipped);
    LeftOutIs(global, |global|, list, skipped, previous, x);
    SortedSetIs(LeftOut(global, |global|, list, skipped, previous));
    KeptPlace(global, list, |list|, x);
    PlaceIs(list, |list|, x);
    if Has(list, x) {
      GlobalEntryIdempotent(list[Place(list, |list|, x)]);
      AlikeExactly(EntryFor(global, d.additions, x), list[Place(list, |list|, x)]);
    }
  }
}
