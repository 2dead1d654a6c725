/** What a client may publish: the accept-or-skip loops of `prepareDraft` (apps/server/src/client-service.ts). */
module ClientDrafts {
  import opened Wrappers
  import opened Catalogue

  datatype Candidate = Candidate(value: Entry, fromGlobal: bool)

  /** One format's candidates. `namesHidden`: the catalogue is listed under other names, as Claude Code lists Anthropic's. */
  datatype Plan = Plan(format: string, candidates: seq<Candidate>, namesHidden: bool)

  /** How this client's own context takes an entry: `Fails` is an error no entry may be skipped for. */
  datatype Verdict = Accepts | Refuses | Fails

  datatype Route = Route(target: string, accounts: Option<seq<string>>)

  predicate IsAlias(e: Entry) {
    e.id != e.target
  }

  /** An alias's route, its pin as `prepareModel` writes it. */
  function RouteOf(e: Entry): Route {
    Route(e.target, GlobalEntry(e).accounts)
  }

  /** Two aliases lead to the same place: one target, and the same accounts. */
  predicate SameRoute(a: Entry, b: Entry) {
    a.target == b.target && SameAccounts(a.accounts, b.accounts)
  }

  lemma SameRouteExactly(a: Entry, b: Entry)
    ensures RouteOf(a) == RouteOf(b) <==> SameRoute(a, b)
  {
    AlikeExactly(a, b);
  }

  predicate OwnAlias(c: Candidate) {
    !c.fromGlobal && c.value.id != c.value.target
  }

  /** Some format holds an alias of the client's own with this id and another route. */
  predicate Conflicts(plans: seq<Plan>, e: Entry) {
    exists p, c :: 0 <= p < |plans| && 0 <= c < |plans[p].candidates| && OwnAlias(plans[p].candidates[c])
                   && plans[p].candidates[c].value.id == e.id && !SameRoute(plans[p].candidates[c].value, e)
  }

  /** The client's own aliases agree wherever they share an id. */
  predicate OwnAgree(plans: seq<Plan>) {
    forall p, c, q, d :: 0 <= p < |plans| && 0 <= c < |plans[p].candidates| && OwnAlias(plans[p].candidates[c])
                         && 0 <= q < |plans| && 0 <= d < |plans[q].candidates| && OwnAlias(plans[q].candidates[d])
                         && plans[p].candidates[c].value.id == plans[q].candidates[d].value.id ==>
      SameRoute(plans[p].candidates[c].value, plans[q].candidates[d].value)
  }

  /** Every alias in the catalogues has the route recorded for its id. */
  predicate AliasesAgree(catalogues: seq<seq<Entry>>, aliases: map<string, Entry>) {
    forall p, k :: 0 <= p < |catalogues| && 0 <= k < |catalogues[p]| && catalogues[p][k].id != catalogues[p][k].target ==>
      catalogues[p][k].id in aliases && SameRoute(aliases[catalogues[p][k].id], catalogues[p][k])
  }

  /** The client's own entries of a plan are all published. */
  predicate OwnPublished(plan: Plan, catalogue: seq<Entry>) {
    forall c :: 0 <= c < |plan.candidates| && !plan.candidates[c].fromGlobal ==>
      GlobalEntry(plan.candidates[c].value) in catalogue
  }

  predicate NoDuplicates(catalogue: seq<Entry>) {
    forall i, j :: 0 <= i < j < |catalogue| ==> catalogue[i].id != catalogue[j].id
  }

  lemma RouteOfCanonical(e: Entry)
    ensures RouteOf(GlobalEntry(e)) == RouteOf(e) && IsAlias(GlobalEntry(e)) == IsAlias(e)
  {
    GlobalEntryIdempotent(e);
  }

  datatype Accepted = Accepted(model: Entry, fromGlobal: bool)

  predicate IsAccepted(accepted: seq<Accepted>, e: Entry) {
    exists i :: 0 <= i < |accepted| && accepted[i].model == e
  }

  /** Every id of an alias of the client's own, and only those, each with a route the client gives it. */
  predicate OwnRoutes(plans: seq<Plan>, own: map<string, Route>) {
    && (forall p, c :: 0 <= p < |plans| && 0 <= c < |plans[p].candidates| && OwnAlias(plans[p].candidates[c]) ==>
          plans[p].candidates[c].value.id in own)
    && forall id :: id in own ==>
         exists p, c :: 0 <= p < |plans| && 0 <= c < |plans[p].candidates| && OwnAlias(plans[p].candidates[c])
                        && plans[p].candidates[c].value.id == id && RouteOf(plans[p].candidates[c].value) == own[id]
  }

  /** The routes of the client's own aliases, over every format; a later one replaces an earlier one. */
  method OwnAliases(plans: seq<Plan>) returns (own: map<string, Route>)
    ensures OwnRoutes(plans, own)
  {
    hide RouteOf, OwnAlias;
    own := map[];
    for p := 0 to |plans|
      invariant forall q, c :: 0 <= q < p && 0 <= c < |plans[q].candidates| && OwnAlias(plans[q].candidates[c]) ==>
                  plans[q].candidates[c].value.id in own
      invariant forall id :: id in own ==>
        exists q, c :: 0 <= q < |plans| && 0 <= c < |plans[q].candidates| && OwnAlias(plans[q].candidates[c])
                       && plans[q].candidates[c].value.id == id && RouteOf(plans[q].candidates[c].value) == own[id]
    {
      for c := 0 to |plans[p].candidates|
        invariant forall q, d :: 0 <= q < p && 0 <= d < |plans[q].candidates| && OwnAlias(plans[q].candidates[d]) ==>
                    plans[q].candidates[d].value.id in own
        invariant forall d :: 0 <= d < c && OwnAlias(plans[p].candidates[d]) ==> plans[p].candidates[d].value.id in own
        invariant forall id :: id in own ==>
          exists q, d :: 0 <= q < |plans| && 0 <= d < |plans[q].candidates| && OwnAlias(plans[q].candidates[d])
                         && plans[q].candidates[d].value.id == id && RouteOf(plans[q].candidates[d].value) == own[id]
      {
        if OwnAlias(plans[p].candidates[c]) {
          own := own[plans[p].candidates[c].value.id := RouteOf(plans[p].candidates[c].value)];
        }
      }
    }
  }

  /** A global alias the client's own aliases rule out. */
  predicate Displaced(own: map<string, Route>, c: Candidate) {
    c.fromGlobal && IsAlias(c.value) && c.value.id in own && own[c.value.id] != RouteOf(c.value)
  }

  /** Another route stands for this alias in an earlier format. */
  predicate Clashes(aliases: map<string, Entry>, e: Entry) {
    IsAlias(e) && e.id in aliases && RouteOf(aliases[e.id]) != RouteOf(e)
  }

  predicate HasId(accepted: seq<Accepted>, id: string) {
    exists i :: 0 <= i < |accepted| && accepted[i].model.id == id
  }

  lemma HasIdMore(accepted: seq<Accepted>, a: Accepted, id: string)
    ensures HasId(accepted + [a], id) <==> HasId(accepted, id) || a.model.id == id
  {
    if HasId(accepted, id) {
      var i :| 0 <= i < |accepted| && accepted[i].model.id == id;
      assert (accepted + [a])[i].model.id == id;
    }
    assert (accepted + [a])[|accepted|] == a;
  }

  /** What the first `n` candidates come to. */
  function Taken(plan: Plan, own: map<string, Route>, aliases: map<string, Entry>, verdict: (string, Entry) -> Verdict, n: nat)
    : seq<Accepted>
    requires n <= |plan.candidates|
    decreases n, 0
  {
    if n == 0 then []
    else
      var c := plan.candidates[n - 1];
      Taken(plan, own, aliases, verdict, n - 1)
      + if Takes(plan, own, aliases, verdict, n - 1) then [Accepted(GlobalEntry(c.value), c.fromGlobal)] else []
  }

  /** Nothing rules the candidate out: no alias of the client's own, no verdict, no earlier entry, no other route. */
  predicate Takes(
    plan: Plan, own: map<string, Route>, aliases: map<string, Entry>, verdict: (string, Entry) -> Verdict, c: nat)
    requires c < |plan.candidates|
    decreases c, 1
  {
    var value := plan.candidates[c].value;
    && !Displaced(own, plan.candidates[c])
    && verdict(plan.format, value).Accepts?
    && !HasId(Taken(plan, own, aliases, verdict, c), value.id)
    && !Clashes(aliases, GlobalEntry(value))
  }

  /**
   * A candidate is taken exactly if the client's context takes it, no entry of this id was taken before it, and, if it
   * is an alias, no earlier format has that alias lead elsewhere, nor for a global one do the client's own.
   */
  lemma TakesExactly(
    plan: Plan, own: map<string, Route>, aliases: map<string, Entry>, verdict: (string, Entry) -> Verdict, c: nat)
    requires c < |plan.candidates|
    ensures var Candidate(e, fromGlobal) := plan.candidates[c];
            Takes(plan, own, aliases, verdict, c)
            <==> && verdict(plan.format, e).Accepts?
                 && (forall a :: a in Taken(plan, own, aliases, verdict, c) ==> a.model.id != e.id)
                 && (e.id != e.target && e.id in aliases ==> SameRoute(aliases[e.id], e))
                 && (e.id != e.target && fromGlobal && e.id in own ==> own[e.id] == RouteOf(e))
  {
    var e := plan.candidates[c].value;
    RouteOfCanonical(e);
    if e.id in aliases {
      SameRouteExactly(aliases[e.id], e);
    }
    hide RouteOf, SameRoute, Taken;
    var taken := Taken(plan, own, aliases, verdict, c);
    if a :| a in taken && a.model.id == e.id {
      var i :| 0 <= i < |taken| && taken[i] == a;
      assert HasId(taken, e.id);
    }
  }

  /** An error no entry may be skipped for, or an entry of the client's own that is ruled out. */
  predicate Rejects(
    plan: Plan, own: map<string, Route>, aliases: map<string, Entry>, verdict: (string, Entry) -> Verdict, c: nat)
    requires c < |plan.candidates|
  {
    var candidate := plan.candidates[c];
    && !Displaced(own, candidate)
    && (verdict(plan.format, candidate.value).Fails?
        || (!candidate.fromGlobal && !Takes(plan, own, aliases, verdict, c)))
  }

  /** A candidate is accepted exactly where nothing rules it out. */
  lemma {:induction false} TakenIs(
    plan: Plan, own: map<string, Route>, aliases: map<string, Entry>, verdict: (string, Entry) -> Verdict, n: nat)
    requires n <= |plan.candidates|
    ensures var taken := Taken(plan, own, aliases, verdict, n);
            && (forall c :: 0 <= c < n && Takes(plan, own, aliases, verdict, c) ==>
                  Accepted(GlobalEntry(plan.candidates[c].value), plan.candidates[c].fromGlobal) in taken)
            && (forall a :: a in taken ==>
                  exists c :: 0 <= c < n && Takes(plan, own, aliases, verdict, c)
                              && a == Accepted(GlobalEntry(plan.candidates[c].value), plan.candidates[c].fromGlobal))
  {
    hide Takes, GlobalEntry;
    if n > 0 {
      TakenIs(plan, own, aliases, verdict, n - 1);
      var before, c := Taken(plan, own, aliases, verdict, n - 1), plan.candidates[n - 1];
      var a := Accepted(GlobalEntry(c.value), c.fromGlobal);
      assert forall x :: x in before + [a] <==> x in before || x == a;
    }
  }

  /** The candidates of one format that the client can publish, or failure. `skips` are those its own aliases displace. */
  method AcceptAll(plan: Plan, own: map<string, Route>, aliases: map<string, Entry>, verdict: (string, Entry) -> Verdict)
    returns (ok: bool, accepted: seq<Accepted>, skips: set<nat>)
    ensures ok <==> forall c :: 0 <= c < |plan.candidates| ==> !Rejects(plan, own, aliases, verdict, c)
    ensures ok ==> accepted == Taken(plan, own, aliases, verdict, |plan.candidates|)
    ensures ok ==> forall i, j :: 0 <= i < j < |accepted| ==> accepted[i].model.id != accepted[j].model.id
    ensures ok ==> forall i :: 0 <= i < |accepted| && IsAlias(accepted[i].model) && accepted[i].model.id in aliases ==>
      SameRoute(aliases[accepted[i].model.id], accepted[i].model)
    ensures ok ==> forall c :: 0 <= c < |plan.candidates| && !plan.candidates[c].fromGlobal ==>
      Accepted(GlobalEntry(plan.candidates[c].value), false) in accepted
    ensures ok ==> forall c: nat :: c in skips <==> c < |plan.candidates| && Displaced(own, plan.candidates[c])
  {
    hide RouteOf, IsAlias, SameRoute;
    ok, accepted, skips := true, [], {};
    var seen: set<string> := {};
    for c := 0 to |plan.candidates|
      invariant accepted == Taken(plan, own, aliases, verdict, c)
      invariant forall d :: 0 <= d < c ==> !Rejects(plan, own, aliases, verdict, d)
      invariant forall i, j :: 0 <= i < j < |accepted| ==> accepted[i].model.id != accepted[j].model.id
      invariant forall id :: id in seen <==> HasId(accepted, id)
      invariant forall i :: 0 <= i < |accepted| && IsAlias(accepted[i].model) && accepted[i].model.id in aliases ==>
        SameRoute(aliases[accepted[i].model.id], accepted[i].model)
      invariant forall d :: 0 <= d < c && !plan.candidates[d].fromGlobal ==>
        Accepted(GlobalEntry(plan.candidates[d].value), false) in accepted
      invariant forall d: nat :: d in skips <==> d < c && Displaced(own, plan.candidates[d])
    {
      var Candidate(value, fromGlobal) := plan.candidates[c];
      if Displaced(own, plan.candidates[c]) {
        skips := skips + {c};
        continue;
      }
      var v := verdict(plan.format, value);
      var model := GlobalEntry(value);
      var refused := v.Refuses? || model.id in seen || Clashes(aliases, model);
      assert v.Fails? || refused <==> !Takes(plan, own, aliases, verdict, c);
      if v.Fails? || (refused && !fromGlobal) {
        assert Rejects(plan, own, aliases, verdict, c);
        return false, [], {};
      }
      if !refused {
        if model.id in aliases {
          SameRouteExactly(aliases[model.id], model);
        }
        forall id {
          HasIdMore(accepted, Accepted(model, fromGlobal), id);
        }
        seen := seen + {model.id};
        accepted := accepted + [Accepted(model, fromGlobal)];
        assert accepted[|accepted| - 1] == Accepted(model, fromGlobal);
      }
    }
  }

  /** The entry is listed under a name that another accepted entry is stored under. */
  predicate NameTaken(plan: Plan, accepted: seq<Accepted>, shown: string -> string, i: nat)
    requires i < |accepted|
  {
    var name := shown(accepted[i].model.id);
    plan.namesHidden && name != accepted[i].model.id
    && exists j :: 0 <= j < |accepted| && accepted[j].model.id == name && shown(name) == name
  }

  /** Of entries listed under one name, the one stored under it stays; `shown` names an entry. */
  method HideClashes(plan: Plan, accepted: seq<Accepted>, shown: string -> string)
    returns (ok: bool, catalogue: seq<Entry>)
    requires forall i, j :: 0 <= i < j < |accepted| ==> accepted[i].model.id != accepted[j].model.id
    ensures ok <==> forall i :: 0 <= i < |accepted| && !accepted[i].fromGlobal ==> !NameTaken(plan, accepted, shown, i)
    ensures ok ==> NoDuplicates(catalogue)
    ensures ok ==> forall k :: 0 <= k < |catalogue| ==> IsAccepted(accepted, catalogue[k])
    ensures ok ==> forall i :: 0 <= i < |accepted| ==> (accepted[i].model in catalogue <==> !NameTaken(plan, accepted, shown, i))
    ensures ok && plan.namesHidden ==> forall j, k :: 0 <= j < |catalogue| && 0 <= k < |catalogue| ==>
      shown(catalogue[j].id) == catalogue[k].id && shown(catalogue[k].id) == catalogue[k].id ==> j == k
  {
    hide GlobalEntry;
    ok, catalogue := true, [];
    var held := set i | 0 <= i < |accepted| && shown(accepted[i].model.id) == accepted[i].model.id :: accepted[i].model.id;
    for i := 0 to |accepted|
      invariant forall k :: 0 <= k < |catalogue| ==> IsAccepted(accepted, catalogue[k])
      invariant NoDuplicates(catalogue)
      invariant forall k, j :: 0 <= k < |catalogue| && i <= j < |accepted| ==> catalogue[k].id != accepted[j].model.id
      invariant forall j :: 0 <= j < i ==> (accepted[j].model in catalogue <==> !NameTaken(plan, accepted, shown, j))
      invariant forall j :: 0 <= j < i && !accepted[j].fromGlobal ==> !NameTaken(plan, accepted, shown, j)
      invariant plan.namesHidden ==> forall k :: 0 <= k < |catalogue| ==>
        shown(catalogue[k].id) == catalogue[k].id || shown(catalogue[k].id) !in held
    {
      var Accepted(model, fromGlobal) := accepted[i];
      var name := shown(model.id);
      assert NameTaken(plan, accepted, shown, i) <==> plan.namesHidden && name != model.id && name in held;
      if plan.namesHidden && name != model.id && name in held {
        if !fromGlobal {
          return false, [];
        }
        continue;
      }
      catalogue := catalogue + [model];
      assert IsAccepted(accepted, model);
      assert catalogue[|catalogue| - 1] == model;
    }
  }

  /**
   * The whole loop. On success ids are unique in every format, an alias id has one target and one account set over all
   * formats, and which global aliases the client's own displace does not depend on the order of the formats.
   */
  method PrepareCatalogues(plans: seq<Plan>, verdict: (string, Entry) -> Verdict, shown: string -> string)
    returns (ok: bool, catalogues: seq<seq<Entry>>, aliases: map<string, Entry>, skips: seq<set<nat>>)
    ensures ok ==> |catalogues| == |plans| == |skips|
    ensures ok ==> forall p :: 0 <= p < |plans| ==> NoDuplicates(catalogues[p]) && OwnPublished(plans[p], catalogues[p])
    ensures ok ==> AliasesAgree(catalogues, aliases)
    ensures ok ==> OwnAgree(plans)
    ensures ok ==> forall p, c :: 0 <= p < |plans| && 0 <= c < |plans[p].candidates| ==>
      (c in skips[p] <==>
        var d := plans[p].candidates[c]; d.fromGlobal && d.value.id != d.value.target && Conflicts(plans, d.value))
  {
    var own := OwnAliases(plans);
    ok, catalogues, aliases, skips := true, [], map[], [];
    hide OwnRoutes, NoDuplicates, OwnPublished, Displaced, Compatible, Recorded, Rejects, NameTaken, IsAccepted, RouteOf, IsAlias, Taken;
    for p := 0 to |plans|
      invariant |catalogues| == |skips| == p
      invariant forall q :: 0 <= q < p ==> NoDuplicates(catalogues[q]) && OwnPublished(plans[q], catalogues[q])
      invariant AliasesAgree(catalogues, aliases)
      invariant SkipsDisplaced(plans, own, skips)
    {
      var fine, accepted, skipped := AcceptAll(plans[p], own, aliases, verdict);
      if !fine {
        return false, [], map[], [];
      }
      var catalogue;
      fine, catalogue := HideClashes(plans[p], accepted, shown);
      if !fine {
        return false, [], map[], [];
      }
      OwnIsPublished(plans[p], accepted, catalogue, shown);
      PublishedCarryRoutes(plans[p], accepted, catalogue, aliases);
      RecordedAgree(catalogues, catalogue, aliases);
      SkipsNext(plans, own, skips, skipped);
      aliases := Recorded(aliases, catalogue, |catalogue|);
      catalogues, skips := catalogues + [catalogue], skips + [skipped];
    }
    OwnAliasesAgree(plans, catalogues, aliases);
    DisplacedIsConflict(plans, own);
  }

  /** The candidates skipped in each format so far are the displaced ones. */
  predicate SkipsDisplaced(plans: seq<Plan>, own: map<string, Route>, skips: seq<set<nat>>) {
    && |skips| <= |plans|
    && forall p, c :: 0 <= p < |skips| && 0 <= c < |plans[p].candidates| ==>
         (c in skips[p] <==> Displaced(own, plans[p].candidates[c]))
  }

  lemma SkipsNext(plans: seq<Plan>, own: map<string, Route>, skips: seq<set<nat>>, skipped: set<nat>)
    requires SkipsDisplaced(plans, own, skips) && |skips| < |plans|
    requires forall c: nat ::
      c in skipped <==> c < |plans[|skips|].candidates| && Displaced(own, plans[|skips|].candidates[c])
    ensures SkipsDisplaced(plans, own, skips + [skipped])
  {
  }

  lemma OwnIsPublished(plan: Plan, accepted: seq<Accepted>, catalogue: seq<Entry>, shown: string -> string)
    requires forall c :: 0 <= c < |plan.candidates| && !plan.candidates[c].fromGlobal ==>
      Accepted(GlobalEntry(plan.candidates[c].value), false) in accepted
    requires forall i :: 0 <= i < |accepted| && !accepted[i].fromGlobal ==> !NameTaken(plan, accepted, shown, i)
    requires forall i :: 0 <= i < |accepted| ==> (accepted[i].model in catalogue <==> !NameTaken(plan, accepted, shown, i))
    ensures OwnPublished(plan, catalogue)
  {
    hide NameTaken;
    forall c | 0 <= c < |plan.candidates| && !plan.candidates[c].fromGlobal
      ensures GlobalEntry(plan.candidates[c].value) in catalogue
    {
      var i :| 0 <= i < |accepted| && accepted[i] == Accepted(GlobalEntry(plan.candidates[c].value), false);
    }
  }

  lemma RecordedAgree(catalogues: seq<seq<Entry>>, catalogue: seq<Entry>, aliases: map<string, Entry>)
    requires AliasesAgree(catalogues, aliases) && Compatible(aliases, catalogue) && NoDuplicates(catalogue)
    ensures AliasesAgree(catalogues + [catalogue], Recorded(aliases, catalogue, |catalogue|))
  {
    RecordedRoutes(aliases, catalogue, |catalogue|);
    hide Recorded, NoDuplicates, RouteOf, IsAlias;
  }

  function Recorded(aliases: map<string, Entry>, catalogue: seq<Entry>, n: nat): map<string, Entry>
    requires n <= |catalogue|
  {
    if n == 0 then aliases
    else
      var before := Recorded(aliases, catalogue, n - 1);
      if IsAlias(catalogue[n - 1]) then before[catalogue[n - 1].id := catalogue[n - 1]] else before
  }

  /** The catalogue's aliases agree with those recorded before it. */
  predicate Compatible(aliases: map<string, Entry>, catalogue: seq<Entry>) {
    forall k :: 0 <= k < |catalogue| && IsAlias(catalogue[k]) && catalogue[k].id in aliases ==>
      SameRoute(aliases[catalogue[k].id], catalogue[k])
  }

  lemma PublishedCarryRoutes(plan: Plan, accepted: seq<Accepted>, catalogue: seq<Entry>, aliases: map<string, Entry>)
    requires forall i :: 0 <= i < |accepted| && IsAlias(accepted[i].model) && accepted[i].model.id in aliases ==>
      SameRoute(aliases[accepted[i].model.id], accepted[i].model)
    requires forall k :: 0 <= k < |catalogue| ==> IsAccepted(accepted, catalogue[k])
    ensures Compatible(aliases, catalogue)
  {
  }

  lemma {:induction false} RecordedRoutes(aliases: map<string, Entry>, catalogue: seq<Entry>, n: nat)
    requires n <= |catalogue| && Compatible(aliases, catalogue) && NoDuplicates(catalogue)
    ensures var r := Recorded(aliases, catalogue, n);
            && (forall id :: id in aliases ==> id in r && SameRoute(r[id], aliases[id]))
            && (forall id :: id in r && id !in aliases ==> exists k :: 0 <= k < n && catalogue[k].id == id)
            && forall k :: 0 <= k < n && IsAlias(catalogue[k]) ==>
                 catalogue[k].id in r && SameRoute(r[catalogue[k].id], catalogue[k])
  {
    hide RouteOf, IsAlias;
    if n > 0 {
      RecordedRoutes(aliases, catalogue, n - 1);
    }
  }

  lemma OwnAliasesAgree(plans: seq<Plan>, catalogues: seq<seq<Entry>>, aliases: map<string, Entry>)
    requires |catalogues| == |plans| && AliasesAgree(catalogues, aliases)
    requires forall p :: 0 <= p < |plans| ==> OwnPublished(plans[p], catalogues[p])
    ensures OwnAgree(plans)
  {
    forall p, c | 0 <= p < |plans| && 0 <= c < |plans[p].candidates| && OwnAlias(plans[p].candidates[c])
      ensures plans[p].candidates[c].value.id in aliases
      ensures SameRoute(aliases[plans[p].candidates[c].value.id], plans[p].candidates[c].value)
    {
      var e := plans[p].candidates[c].value;
      RouteOfCanonical(e);
      assert GlobalEntry(e) in catalogues[p];
      var k :| 0 <= k < |catalogues[p]| && catalogues[p][k] == GlobalEntry(e);
      SameRouteExactly(aliases[e.id], GlobalEntry(e));
      SameRouteExactly(aliases[e.id], e);
    }
  }

  /** When the client's own aliases agree, the route kept for an id is every route they give it. */
  lemma DisplacedIsConflict(plans: seq<Plan>, own: map<string, Route>)
    requires OwnAgree(plans) && OwnRoutes(plans, own)
    ensures forall d: Candidate ::
      Displaced(own, d) <==> d.fromGlobal && d.value.id != d.value.target && Conflicts(plans, d.value)
  {
    hide RouteOf, SameRoute;
    forall d: Candidate | d.fromGlobal && d.value.id != d.value.target
      ensures Displaced(own, d) <==> Conflicts(plans, d.value)
    {
      forall a, b
        ensures RouteOf(a) == RouteOf(b) <==> SameRoute(a, b)
      {
        SameRouteExactly(a, b);
      }
      if d.value.id in own {
        var p, c :| 0 <= p < |plans| && 0 <= c < |plans[p].candidates| && OwnAlias(plans[p].candidates[c])
                    && plans[p].candidates[c].value.id == d.value.id && RouteOf(plans[p].candidates[c].value) == own[d.value.id];
      }
    }
  }

  /** Conflicts are the same whatever order the formats come in. */
  lemma ConflictsIgnoreOrder(a: seq<Plan>, b: seq<Plan>, e: Entry)
    requires forall plan :: plan in a <==> plan in b
    ensures Conflicts(a, e) <==> Conflicts(b, e)
  {
    ConflictsMove(a, b, e);
    ConflictsMove(b, a, e);
  }

  lemma ConflictsMove(a: seq<Plan>, b: seq<Plan>, e: Entry)
    requires forall plan :: plan in a ==> plan in b
    ensures Conflicts(a, e) ==> Conflicts(b, e)
  {
    if Conflicts(a, e) {
      var p, c :| 0 <= p < |a| && 0 <= c < |a[p].candidates| && OwnAlias(a[p].candidates[c])
                  && a[p].candidates[c].value.id == e.id && !SameRoute(a[p].candidates[c].value, e);
      assert a[p] in a;
      var q :| 0 <= q < |b| && b[q] == a[p];
      assert OwnAlias(b[q].candidates[c]);
    }
  }
}
