/**
 * First-match routing (packages/core/src/routing.ts) and what committing a reviewed client does to it
 * (apps/server/src/client-service.ts). Rules are listed in position order.
 */
module Routing {
  import opened Wrappers

  datatype Models = AnyModel | Exact(value: string) | Family(family: string)
  datatype Pool = Inherit | Provider(provider: string) | Accounts(ids: seq<string>)
  datatype Target = Default | Requested | Literal(model: string)

  datatype Rule = Rule(
    id: string, name: string, enabled: bool, position: int, key: Option<string>, models: Models, pool: Pool, target: Target)

  /** A model's family, if it has one. */
  type Families = string -> Option<string>

  /** One request: the client's key, if any, and the model it asks for. */
  datatype Request = Request(key: Option<string>, model: string)

  predicate Matches(models: Models, model: string, family: Families) {
    match models
    case AnyModel => true
    case Exact(value) => value == model
    case Family(name) => family(model) == Some(name)
  }

  predicate Applies(r: Rule, q: Request, family: Families) {
    r.enabled && (r.key.None? || r.key == q.key) && Matches(r.models, q.model, family)
  }

  /** `matchRoutingRule`: where the first rule that applies is; the length of the list if none does. */
  function Winner(rules: seq<Rule>, q: Request, family: Families): (i: nat)
    ensures i <= |rules|
  {
    if rules == [] || Applies(rules[0], q, family) then 0 else 1 + Winner(rules[1..], q, family)
  }

  /** `resolveRoutingTarget`, with no winner written as a default target. */
  function Resolve(rules: seq<Rule>, q: Request, family: Families): string {
    var i := Winner(rules, q, family);
    if i < |rules| && rules[i].target.Literal? then rules[i].target.model else q.model
  }

  /** The rules that could serve the request, in order. */
  function Candidates(rules: seq<Rule>, q: Request, family: Families): seq<Rule> {
    if rules == [] then []
    else if Applies(rules[0], q, family) then [rules[0]] + Candidates(rules[1..], q, family)
    else Candidates(rules[1..], q, family)
  }

  /** Two lists route the request alike: to the same rule, or neither to any. */
  predicate SameWinner(a: seq<Rule>, b: seq<Rule>, q: Request, family: Families) {
    var i, j := Winner(a, q, family), Winner(b, q, family);
    (i < |a| <==> j < |b|) && (i < |a| && j < |b| ==> a[i] == b[j])
  }

  lemma {:induction false} WinnerIsFirstCandidate(rules: seq<Rule>, q: Request, family: Families)
    ensures var c, i := Candidates(rules, q, family), Winner(rules, q, family);
            && (c == [] <==> i == |rules|)
            && (c != [] ==> i < |rules| && rules[i] == c[0])
  {
    if rules != [] && !Applies(rules[0], q, family) {
      WinnerIsFirstCandidate(rules[1..], q, family);
    }
  }

  /**
   * The rule that serves a request is enabled, is for every key or for the request's, and is for any model, for that
   * very one, or for its family; and every enabled rule before it is for another key, another model or another family.
   */
  lemma {:induction false} WinnerServes(rules: seq<Rule>, q: Request, family: Families)
    ensures var i := Winner(rules, q, family);
            && (i < |rules| ==>
                  && rules[i].enabled
                  && (rules[i].key == None || rules[i].key == q.key)
                  && (|| rules[i].models == AnyModel
                      || rules[i].models == Exact(q.model)
                      || (family(q.model).Some? && rules[i].models == Family(family(q.model).value))))
            && forall j :: 0 <= j < i && rules[j].enabled ==>
                 || (rules[j].key.Some? && rules[j].key != q.key)
                 || (rules[j].models.Exact? && rules[j].models.value != q.model)
                 || (rules[j].models.Family? && family(q.model) != Some(rules[j].models.family))
  {
    if rules != [] && !Applies(rules[0], q, family) {
      WinnerServes(rules[1..], q, family);
    }
  }

  /** A disabled rule routes every request as a deleted one does. */
  lemma DisabledIsDeleted(before: seq<Rule>, r: Rule, after: seq<Rule>, q: Request, family: Families)
    requires !r.enabled
    ensures SameWinner(before + [r] + after, before + after, q, family)
    ensures Resolve(before + [r] + after, q, family) == Resolve(before + after, q, family)
  {
    CandidatesConcat(before + [r], after, q, family);
    CandidatesConcat(before, [r], q, family);
    CandidatesConcat(before, after, q, family);
    CandidatesDecide(before + [r] + after, before + after, q, family);
  }

  /** Only a literal rule changes the model, and a request no rule serves keeps it too. */
  lemma ResolveChangesLiterally(rules: seq<Rule>, q: Request, family: Families)
    ensures forall i :: 0 <= i < |rules| && i == Winner(rules, q, family) && rules[i].target.Literal? ==>
      Resolve(rules, q, family) == rules[i].target.model
    ensures Resolve(rules, q, family) != q.model ==>
      exists i :: 0 <= i < |rules| && i == Winner(rules, q, family) && rules[i].enabled
                  && rules[i].target == Literal(Resolve(rules, q, family))
  {
    WinnerServes(rules, q, family);
  }

  lemma CandidatesDecide(a: seq<Rule>, b: seq<Rule>, q: Request, family: Families)
    requires Candidates(a, q, family) == Candidates(b, q, family)
    ensures SameWinner(a, b, q, family)
  {
    WinnerIsFirstCandidate(a, q, family);
    WinnerIsFirstCandidate(b, q, family);
  }

  lemma {:induction false} CandidatesConcat(a: seq<Rule>, b: seq<Rule>, q: Request, family: Families)
    ensures Candidates(a + b, q, family) == Candidates(a, q, family) + Candidates(b, q, family)
  {
    if a == [] {
      assert a + b == b;
    } else {
      assert (a + b)[0] == a[0] && (a + b)[1..] == a[1..] + b;
      CandidatesConcat(a[1..], b, q, family);
    }
  }

  lemma {:induction false} NoCandidates(rules: seq<Rule>, q: Request, family: Families)
    requires forall i :: 0 <= i < |rules| ==> !Applies(rules[i], q, family)
    ensures Candidates(rules, q, family) == []
  {
    if rules != [] {
      NoCandidates(rules[1..], q, family);
    }
  }

  // Commits

  /** `client_alias_rules`: which client each alias rule belongs to. */
  type Owners = map<string, string>

  predicate Owns(owners: Owners, id: string, client: string) {
    id in owners && owners[id] == client
  }

  /** One reviewed client, with the alias rules it writes. */
  datatype Record = Record(client: string, rules: seq<Rule>)

  /** The list without the client's own alias rules. */
  function Unowned(rules: seq<Rule>, owners: Owners, client: string): seq<Rule> {
    if rules == [] then []
    else (if Owns(owners, rules[0].id, client) then [] else [rules[0]]) + Unowned(rules[1..], owners, client)
  }

  /** Its alias rules go first, and every other rule keeps its place. */
  function Committed(rules: seq<Rule>, owners: Owners, record: Record): seq<Rule> {
    record.rules + Unowned(rules, owners, record.client)
  }

  function OwnersAfter(owners: Owners, record: Record): Owners {
    var written := set i | 0 <= i < |record.rules| :: record.rules[i].id;
    map id | id in owners.Keys + written && (id in written || owners[id] != record.client)
      :: if id in written then record.client else owners[id]
  }

  /** Rules owned by the client, or written for it, that could serve the request. */
  predicate Touches(rules: seq<Rule>, owners: Owners, record: Record, q: Request, family: Families) {
    || (exists i :: 0 <= i < |rules| && Owns(owners, rules[i].id, record.client) && Applies(rules[i], q, family))
    || (exists i :: 0 <= i < |record.rules| && Applies(record.rules[i], q, family))
  }

  lemma {:induction false} DropKeepsCandidates(rules: seq<Rule>, owners: Owners, client: string, q: Request, family: Families)
    requires forall i :: 0 <= i < |rules| && Owns(owners, rules[i].id, client) ==> !Applies(rules[i], q, family)
    ensures Candidates(Unowned(rules, owners, client), q, family) == Candidates(rules, q, family)
  {
    if rules != [] {
      DropKeepsCandidates(rules[1..], owners, client, q, family);
      var rest := Unowned(rules[1..], owners, client);
      if Owns(owners, rules[0].id, client) {
        assert Unowned(rules, owners, client) == rest;
      } else {
        CandidatesConcat([rules[0]], rest, q, family);
      }
    }
  }

  /** A request no owned and no written rule applies to keeps its winner. */
  lemma UntouchedKeepsWinner(rules: seq<Rule>, owners: Owners, record: Record, q: Request, family: Families)
    requires !Touches(rules, owners, record, q, family)
    ensures SameWinner(rules, Committed(rules, owners, record), q, family)
  {
    CandidatesAfter(rules, owners, record, q, family);
    NoCandidates(record.rules, q, family);
    DropKeepsCandidates(rules, owners, record.client, q, family);
    CandidatesDecide(rules, Committed(rules, owners, record), q, family);
  }

  lemma CandidatesAfter(rules: seq<Rule>, owners: Owners, record: Record, q: Request, family: Families)
    ensures Candidates(Committed(rules, owners, record), q, family)
         == Candidates(record.rules, q, family) + Candidates(Unowned(rules, owners, record.client), q, family)
  {
    CandidatesConcat(record.rules, Unowned(rules, owners, record.client), q, family);
  }

  predicate ForClient(record: Record) {
    forall i :: 0 <= i < |record.rules| ==> record.rules[i].key == Some(record.client)
  }

  // The alias rules of a review

  datatype Alias = Alias(id: string, target: string, accounts: Option<seq<string>>)

  /** One fresh rule per alias, in order. `ids` are the random rule ids. */
  function AliasRule(client: string, name: string, alias: Alias, id: string, position: nat): Rule {
    Rule(id, name + ": " + alias.id, true, position, Some(client), Exact(alias.id),
         if alias.accounts.Some? then Accounts(alias.accounts.value) else Inherit, Literal(alias.target))
  }

  function FreshRules(client: string, name: string, aliases: seq<Alias>, ids: seq<string>): seq<Rule>
    requires |ids| == |aliases|
  {
    seq(|aliases|, i requires 0 <= i < |aliases| => AliasRule(client, name, aliases[i], ids[i], i))
  }

  /** `match_model_value ?? ""`. */
  function MatchValue(models: Models): string {
    match models
    case AnyModel => ""
    case Exact(value) => value
    case Family(name) => name
  }

  /** Owned rules, of whatever kind, whose value is neither republished as an alias nor dropped by name. */
  predicate Retains(owners: Owners, client: string, aliases: seq<Alias>, dropped: set<string>, r: Rule) {
    && Owns(owners, r.id, client)
    && (forall i :: 0 <= i < |aliases| ==> aliases[i].id != MatchValue(r.models))
    && MatchValue(r.models) !in dropped
  }

  function Retained(rules: seq<Rule>, owners: Owners, client: string, aliases: seq<Alias>, dropped: set<string>, at: nat): seq<Rule> {
    if rules == [] then []
    else if Retains(owners, client, aliases, dropped, rules[0]) then
      [rules[0].(position := at)] + Retained(rules[1..], owners, client, aliases, dropped, at + 1)
    else Retained(rules[1..], owners, client, aliases, dropped, at)
  }

  function Reviewed(
    rules: seq<Rule>, owners: Owners, client: string, name: string, aliases: seq<Alias>, ids: seq<string>,
    dropped: set<string>): Record
    requires |ids| == |aliases|
  {
    Record(client, FreshRules(client, name, aliases, ids) + Retained(rules, owners, client, aliases, dropped, |aliases|))
  }

  /** Each retained rule is one of the client's own, moved to the next free position. */
  lemma {:induction false} RetainedAt(
    rules: seq<Rule>, owners: Owners, client: string, aliases: seq<Alias>, dropped: set<string>, at: nat, k: nat)
    returns (j: nat)
    requires k < |Retained(rules, owners, client, aliases, dropped, at)|
    ensures j < |rules| && Retains(owners, client, aliases, dropped, rules[j])
    ensures Retained(rules, owners, client, aliases, dropped, at)[k] == rules[j].(position := at + k)
  {
    if Retains(owners, client, aliases, dropped, rules[0]) {
      j := 0;
      if k > 0 {
        j := RetainedAt(rules[1..], owners, client, aliases, dropped, at + 1, k - 1);
        j := j + 1;
      }
    } else {
      j := RetainedAt(rules[1..], owners, client, aliases, dropped, at, k);
      j := j + 1;
    }
  }

  /** And each such rule is among the retained ones. */
  lemma {:induction false} RetainedHas(
    rules: seq<Rule>, owners: Owners, client: string, aliases: seq<Alias>, dropped: set<string>, at: nat, j: nat)
    returns (k: nat)
    requires j < |rules| && Retains(owners, client, aliases, dropped, rules[j])
    ensures k < |Retained(rules, owners, client, aliases, dropped, at)|
    ensures Retained(rules, owners, client, aliases, dropped, at)[k] == rules[j].(position := at + k)
  {
    if j == 0 {
      k := 0;
    } else if Retains(owners, client, aliases, dropped, rules[0]) {
      k := RetainedHas(rules[1..], owners, client, aliases, dropped, at + 1, j - 1);
      k := k + 1;
    } else {
      k := RetainedHas(rules[1..], owners, client, aliases, dropped, at, j - 1);
    }
  }

  /** The reviewed rules carry the positions 0, 1, and so on. */
  lemma ReviewedIsOrdered(
    rules: seq<Rule>, owners: Owners, client: string, name: string, aliases: seq<Alias>, ids: seq<string>,
    dropped: set<string>)
    requires |ids| == |aliases|
    ensures var record := Reviewed(rules, owners, client, name, aliases, ids, dropped);
            forall k :: 0 <= k < |record.rules| ==> record.rules[k].position == k
  {
    var record := Reviewed(rules, owners, client, name, aliases, ids, dropped);
    forall k | |aliases| <= k < |record.rules|
      ensures record.rules[k].position == k
    {
      var j := RetainedAt(rules, owners, client, aliases, dropped, |aliases|, k - |aliases|);
    }
  }

  /**
   * A rule is retained, after the fresh ones and otherwise as it stands, exactly if it is the client's, no alias of the
   * review has the value it matches, and the draft does not drop that by name. A rule for any model matches "".
   */
  lemma RetainedExactly(
    rules: seq<Rule>, owners: Owners, client: string, name: string, aliases: seq<Alias>, ids: seq<string>,
    dropped: set<string>, j: nat)
    requires |ids| == |aliases| && j < |rules| && DistinctIds(rules)
    ensures var written := Reviewed(rules, owners, client, name, aliases, ids, dropped).rules;
            var value := match rules[j].models case AnyModel => "" case Exact(model) => model case Family(name) => name;
            (exists k :: |aliases| <= k < |written| && written[k] == rules[j].(position := k))
            <==> && rules[j].id in owners.Keys && owners[rules[j].id] == client
                 && (forall a :: a in aliases ==> a.id != value) && value !in dropped
  {
    var written := Reviewed(rules, owners, client, name, aliases, ids, dropped).rules;
    if Retains(owners, client, aliases, dropped, rules[j]) {
      var k := RetainedHas(rules, owners, client, aliases, dropped, |aliases|, j);
      assert written[|aliases| + k] == rules[j].(position := |aliases| + k);
    }
    if k :| |aliases| <= k < |written| && written[k] == rules[j].(position := k) {
      var i := RetainedAt(rules, owners, client, aliases, dropped, |aliases|, k - |aliases|);
      assert rules[i].id == rules[j].id;
    }
  }

  /** After a commit a rule belongs to the client that wrote it, or to another client that had it before. */
  lemma OwnersAfterIs(owners: Owners, record: Record, id: string, client: string)
    ensures Owns(OwnersAfter(owners, record), id, client)
       <==> if exists i :: 0 <= i < |record.rules| && record.rules[i].id == id then client == record.client
            else client != record.client && id in owners && owners[id] == client
  {
  }

  /** They match the client's own key only, exactly if the retained ones did. */
  lemma ReviewedIsForClient(
    rules: seq<Rule>, owners: Owners, client: string, name: string, aliases: seq<Alias>, ids: seq<string>,
    dropped: set<string>)
    requires |ids| == |aliases|
    ensures ForClient(Reviewed(rules, owners, client, name, aliases, ids, dropped)) <==>
            forall j :: 0 <= j < |rules| && Retains(owners, client, aliases, dropped, rules[j]) ==> rules[j].key == Some(client)
  {
    var record := Reviewed(rules, owners, client, name, aliases, ids, dropped);
    if ForClient(record) {
      forall j | 0 <= j < |rules| && Retains(owners, client, aliases, dropped, rules[j])
        ensures rules[j].key == Some(client)
      {
        var k := RetainedHas(rules, owners, client, aliases, dropped, |aliases|, j);
        assert record.rules[|aliases| + k].key == rules[j].key;
      }
    } else {
      var k :| 0 <= k < |record.rules| && record.rules[k].key != Some(client);
      var j := RetainedAt(rules, owners, client, aliases, dropped, |aliases|, k - |aliases|);
    }
  }

  // Other keys

  /** Two lists route the request to the rule of one id, or neither to any. */
  predicate SameRule(a: seq<Rule>, b: seq<Rule>, q: Request, family: Families) {
    var i, j := Winner(a, q, family), Winner(b, q, family);
    (i < |a| <==> j < |b|) && (i < |a| && j < |b| ==> a[i].id == b[j].id)
  }

  predicate RetainedApplies(
    rules: seq<Rule>, owners: Owners, client: string, aliases: seq<Alias>, dropped: set<string>, q: Request, family: Families)
  {
    exists j :: 0 <= j < |rules| && Retains(owners, client, aliases, dropped, rules[j]) && Applies(rules[j], q, family)
  }

  /** The request's rule is retained, or is not the client's and no retained rule applies, or there is none. */
  predicate RuleStays(
    rules: seq<Rule>, owners: Owners, client: string, aliases: seq<Alias>, dropped: set<string>, q: Request, family: Families)
  {
    var w := Winner(rules, q, family);
    || w == |rules|
    || Retains(owners, client, aliases, dropped, rules[w])
    || (!Owns(owners, rules[w].id, client) && !RetainedApplies(rules, owners, client, aliases, dropped, q, family))
  }

  predicate DistinctIds(rules: seq<Rule>) {
    forall i, j :: 0 <= i < j < |rules| ==> rules[i].id != rules[j].id
  }

  lemma {:induction false} UnownedAt(rules: seq<Rule>, owners: Owners, client: string, k: nat) returns (j: nat)
    requires k < |Unowned(rules, owners, client)|
    ensures j < |rules| && Unowned(rules, owners, client)[k] == rules[j] && !Owns(owners, rules[j].id, client)
  {
    if Owns(owners, rules[0].id, client) {
      j := UnownedAt(rules[1..], owners, client, k);
      j := j + 1;
    } else if k == 0 {
      j := 0;
    } else {
      j := UnownedAt(rules[1..], owners, client, k - 1);
      j := j + 1;
    }
  }

  lemma {:induction false} CandidateFrom(rules: seq<Rule>, q: Request, family: Families, k: nat) returns (i: nat)
    requires k < |Candidates(rules, q, family)|
    ensures i < |rules| && Applies(rules[i], q, family) && Candidates(rules, q, family)[k] == rules[i]
  {
    if !Applies(rules[0], q, family) {
      i := CandidateFrom(rules[1..], q, family, k);
      i := i + 1;
    } else if k == 0 {
      i := 0;
    } else {
      i := CandidateFrom(rules[1..], q, family, k - 1);
      i := i + 1;
    }
  }

  lemma {:induction false} SomeCandidate(rules: seq<Rule>, q: Request, family: Families, i: nat)
    requires i < |rules| && Applies(rules[i], q, family)
    ensures Candidates(rules, q, family) != []
  {
    if i > 0 {
      SomeCandidate(rules[1..], q, family, i - 1);
    }
  }

  /** Nothing before the winner applies, and the winner does. */
  lemma {:induction false} WinnerIs(rules: seq<Rule>, q: Request, family: Families)
    ensures var w := Winner(rules, q, family);
            && (forall i :: 0 <= i < w ==> !Applies(rules[i], q, family))
            && (w < |rules| ==> Applies(rules[w], q, family))
  {
    if rules != [] && !Applies(rules[0], q, family) {
      WinnerIs(rules[1..], q, family);
    }
  }

  /** Winners are compared by comparing first candidates. */
  lemma SameRuleByCandidates(a: seq<Rule>, b: seq<Rule>, q: Request, family: Families)
    ensures var x, y := Candidates(a, q, family), Candidates(b, q, family);
            SameRule(a, b, q, family) <==> (x == [] <==> y == []) && (x != [] && y != [] ==> x[0].id == y[0].id)
  {
    WinnerIsFirstCandidate(a, q, family);
    WinnerIsFirstCandidate(b, q, family);
  }

  lemma {:induction false} RetainedWinner(
    rules: seq<Rule>, owners: Owners, client: string, aliases: seq<Alias>, dropped: set<string>, at: nat, q: Request,
    family: Families, w: nat)
    requires w < |rules| && Applies(rules[w], q, family) && Retains(owners, client, aliases, dropped, rules[w])
    requires forall i :: 0 <= i < w ==> !Applies(rules[i], q, family)
    ensures var c := Candidates(Retained(rules, owners, client, aliases, dropped, at), q, family);
            c != [] && c[0].id == rules[w].id
  {
    if w > 0 {
      var next := if Retains(owners, client, aliases, dropped, rules[0]) then at + 1 else at;
      RetainedWinner(rules[1..], owners, client, aliases, dropped, next, q, family, w - 1);
    }
  }

  lemma {:induction false} UnownedWinner(rules: seq<Rule>, owners: Owners, client: string, q: Request, family: Families, w: nat)
    requires w < |rules| && Applies(rules[w], q, family) && !Owns(owners, rules[w].id, client)
    requires forall i :: 0 <= i < w ==> !Applies(rules[i], q, family)
    ensures var c := Candidates(Unowned(rules, owners, client), q, family);
            c != [] && c[0] == rules[w]
  {
    if w == 0 {
      assert Unowned(rules, owners, client)[0] == rules[0];
    } else {
      UnownedWinner(rules[1..], owners, client, q, family, w - 1);
      var rest := Unowned(rules[1..], owners, client);
      if Owns(owners, rules[0].id, client) {
        assert Unowned(rules, owners, client) == rest;
      } else {
        CandidatesConcat([rules[0]], rest, q, family);
      }
    }
  }

  /** For another key, or none, only the retained rules and the unowned ones can be candidates. */
  lemma OtherKeyCandidates(
    rules: seq<Rule>, owners: Owners, client: string, name: string, aliases: seq<Alias>, ids: seq<string>,
    dropped: set<string>, q: Request, family: Families)
    requires |ids| == |aliases| && q.key != Some(client)
    ensures Candidates(Committed(rules, owners, Reviewed(rules, owners, client, name, aliases, ids, dropped)), q, family)
         == Candidates(Retained(rules, owners, client, aliases, dropped, |aliases|), q, family)
            + Candidates(Unowned(rules, owners, client), q, family)
  {
    var record := Reviewed(rules, owners, client, name, aliases, ids, dropped);
    var written := FreshRules(client, name, aliases, ids);
    CandidatesAfter(rules, owners, record, q, family);
    CandidatesConcat(written, Retained(rules, owners, client, aliases, dropped, |aliases|), q, family);
    NoCandidates(written, q, family);
  }

  lemma RetainedCandidates(
    rules: seq<Rule>, owners: Owners, client: string, aliases: seq<Alias>, dropped: set<string>, at: nat, q: Request,
    family: Families)
    ensures Candidates(Retained(rules, owners, client, aliases, dropped, at), q, family) != []
       <==> RetainedApplies(rules, owners, client, aliases, dropped, q, family)
  {
    var kept := Retained(rules, owners, client, aliases, dropped, at);
    if Candidates(kept, q, family) != [] {
      var k := CandidateFrom(kept, q, family, 0);
      var j := RetainedAt(rules, owners, client, aliases, dropped, at, k);
      assert Retains(owners, client, aliases, dropped, rules[j]) && Applies(rules[j], q, family);
    }
    if j :| 0 <= j < |rules| && Retains(owners, client, aliases, dropped, rules[j]) && Applies(rules[j], q, family) {
      var k := RetainedHas(rules, owners, client, aliases, dropped, at, j);
      SomeCandidate(kept, q, family, k);
    }
  }

  /** Its own rule goes, or a retained one is moved before it. */
  lemma WinnerLost(
    rules: seq<Rule>, owners: Owners, client: string, name: string, aliases: seq<Alias>, ids: seq<string>,
    dropped: set<string>, q: Request, family: Families)
    requires |ids| == |aliases| && q.key != Some(client) && DistinctIds(rules)
    requires !RuleStays(rules, owners, client, aliases, dropped, q, family)
    ensures !SameRule(rules, Committed(rules, owners, Reviewed(rules, owners, client, name, aliases, ids, dropped)), q, family)
  {
    var w := Winner(rules, q, family);
    var kept, rest := Retained(rules, owners, client, aliases, dropped, |aliases|), Unowned(rules, owners, client);
    var after := Committed(rules, owners, Reviewed(rules, owners, client, name, aliases, ids, dropped));
    SameRuleByCandidates(rules, after, q, family);
    WinnerIsFirstCandidate(rules, q, family);
    OtherKeyCandidates(rules, owners, client, name, aliases, ids, dropped, q, family);
    RetainedCandidates(rules, owners, client, aliases, dropped, |aliases|, q, family);
    if Candidates(kept, q, family) != [] {
      var k := CandidateFrom(kept, q, family, 0);
      var j := RetainedAt(rules, owners, client, aliases, dropped, |aliases|, k);
      assert j != w && Candidates(after, q, family)[0].id == rules[j].id;
    } else if Candidates(rest, q, family) != [] {
      var k := CandidateFrom(rest, q, family, 0);
      var j := UnownedAt(rules, owners, client, k);
      assert j != w && Candidates(after, q, family)[0].id == rules[j].id;
    }
  }

  lemma WinnerStays(
    rules: seq<Rule>, owners: Owners, client: string, name: string, aliases: seq<Alias>, ids: seq<string>,
    dropped: set<string>, q: Request, family: Families)
    requires |ids| == |aliases| && q.key != Some(client) && RuleStays(rules, owners, client, aliases, dropped, q, family)
    ensures SameRule(rules, Committed(rules, owners, Reviewed(rules, owners, client, name, aliases, ids, dropped)), q, family)
  {
    var w := Winner(rules, q, family);
    var rest := Unowned(rules, owners, client);
    SameRuleByCandidates(
      rules, Committed(rules, owners, Reviewed(rules, owners, client, name, aliases, ids, dropped)), q, family);
    WinnerIsFirstCandidate(rules, q, family);
    WinnerIs(rules, q, family);
    OtherKeyCandidates(rules, owners, client, name, aliases, ids, dropped, q, family);
    RetainedCandidates(rules, owners, client, aliases, dropped, |aliases|, q, family);
    if w == |rules| {
      if Candidates(rest, q, family) != [] {
        var k := CandidateFrom(rest, q, family, 0);
        var j := UnownedAt(rules, owners, client, k);
        assert false;
      }
    } else if Retains(owners, client, aliases, dropped, rules[w]) {
      RetainedWinner(rules, owners, client, aliases, dropped, |aliases|, q, family, w);
    } else {
      UnownedWinner(rules, owners, client, q, family, w);
    }
  }

  /** Through a commit, exactly such requests under another key, or none, keep their rule. */
  lemma OtherKeysKeepRuleExactly(
    rules: seq<Rule>, owners: Owners, client: string, name: string, aliases: seq<Alias>, ids: seq<string>,
    dropped: set<string>, q: Request, family: Families)
    requires |ids| == |aliases| && q.key != Some(client) && DistinctIds(rules)
    ensures SameRule(rules, Committed(rules, owners, Reviewed(rules, owners, client, name, aliases, ids, dropped)), q, family)
       <==> RuleStays(rules, owners, client, aliases, dropped, q, family)
  {
    if RuleStays(rules, owners, client, aliases, dropped, q, family) {
      WinnerStays(rules, owners, client, name, aliases, ids, dropped, q, family);
    } else {
      WinnerLost(rules, owners, client, name, aliases, ids, dropped, q, family);
    }
  }

  /** An alias rule an operator has since opened to every key is written back first, and takes other keys' requests. */
  lemma EditedAliasExample(family: Families)
    ensures var shared := Rule("a", "alias", true, 1, None, Exact("m"), Inherit, Literal("x"));
            var other := Rule("b", "other", true, 0, Some("d"), Exact("m"), Inherit, Literal("y"));
            var rules, owners, q := [other, shared], map["a" := "c"], Request(Some("d"), "m");
            && Resolve(rules, q, family) == "y"
            && Resolve(Committed(rules, owners, Reviewed(rules, owners, "c", "n", [], [], {})), q, family) == "x"
  {
    var shared := Rule("a", "alias", true, 1, None, Exact("m"), Inherit, Literal("x"));
    var other := Rule("b", "other", true, 0, Some("d"), Exact("m"), Inherit, Literal("y"));
    var rules, owners := [other, shared], map["a" := "c"];
    assert rules[1..] == [shared] && [shared][1..] == [];
    assert Retained(rules[1..], owners, "c", [], {}, 0) == [shared.(position := 0)];
    assert Retained(rules, owners, "c", [], {}, 0) == [shared.(position := 0)];
    assert Reviewed(rules, owners, "c", "n", [], [], {}).rules == [shared.(position := 0)];
    assert Committed(rules, owners, Reviewed(rules, owners, "c", "n", [], [], {}))[0] == shared.(position := 0);
  }

  /** Whatever rules exist, an alias the client publishes resolves to the target and accounts that were reviewed. */
  lemma AliasResolvesToTarget(
    before: seq<Rule>, now: seq<Rule>, owners: Owners, client: string, name: string, aliases: seq<Alias>,
    ids: seq<string>, dropped: set<string>, k: nat, family: Families)
    requires |ids| == |aliases| && k < |aliases|
    requires forall i, j :: 0 <= i < j < |aliases| ==> aliases[i].id != aliases[j].id
    ensures var record := Reviewed(before, owners, client, name, aliases, ids, dropped);
            var after := Committed(now, owners, record);
            var q := Request(Some(client), aliases[k].id);
            && Resolve(after, q, family) == aliases[k].target
            && Winner(after, q, family) < |after|
            && after[Winner(after, q, family)]
               == Rule(ids[k], name + ": " + aliases[k].id, true, k, Some(client), Exact(aliases[k].id),
                       match aliases[k].accounts case Some(accounts) => Accounts(accounts) case None => Inherit,
                       Literal(aliases[k].target))
  {
    var record := Reviewed(before, owners, client, name, aliases, ids, dropped);
    var after := Committed(now, owners, record);
    var q := Request(Some(client), aliases[k].id);
    forall i | 0 <= i <= k
      ensures after[i] == AliasRule(client, name, aliases[i], ids[i], i) && (Applies(after[i], q, family) <==> i == k)
    {
    }
    WinnerAt(after, k, q, family);
  }

  lemma {:induction false} WinnerAt(rules: seq<Rule>, k: nat, q: Request, family: Families)
    requires k < |rules| && Applies(rules[k], q, family)
    requires forall i :: 0 <= i < k ==> !Applies(rules[i], q, family)
    ensures Winner(rules, q, family) == k
  {
    if k > 0 {
      WinnerAt(rules[1..], k - 1, q, family);
    }
  }

  // Batches

  /** The record's rule ids are its client's own, or new to the table. */
  predicate Fresh(rules: seq<Rule>, owners: Owners, record: Record) {
    forall x, r :: 0 <= x < |record.rules| && 0 <= r < |rules| && record.rules[x].id == rules[r].id ==>
      Owns(owners, rules[r].id, record.client)
  }

  predicate Apart(a: Record, b: Record) {
    && a.client != b.client
    && forall x, y :: 0 <= x < |a.rules| && 0 <= y < |b.rules| ==> a.rules[x].id != b.rules[y].id
  }

  /** The records of one batch, over distinct clients. What their rules match plays no part. */
  predicate Batch(rules: seq<Rule>, owners: Owners, records: seq<Record>) {
    && (forall i :: 0 <= i < |records| ==> Fresh(rules, owners, records[i]))
    && forall i, j :: 0 <= i < j < |records| ==> Apart(records[i], records[j])
  }

  datatype Table = Table(rules: seq<Rule>, owners: Owners)

  function CommitOne(t: Table, record: Record): Table {
    Table(Committed(t.rules, t.owners, record), OwnersAfter(t.owners, record))
  }

  function CommitAll(t: Table, records: seq<Record>, n: nat): Table
    requires n <= |records|
  {
    if n == 0 then t else CommitOne(CommitAll(t, records, n - 1), records[n - 1])
  }

  lemma {:induction false} UnownedConcat(a: seq<Rule>, b: seq<Rule>, owners: Owners, client: string)
    ensures Unowned(a + b, owners, client) == Unowned(a, owners, client) + Unowned(b, owners, client)
  {
    if a == [] {
      assert a + b == b;
    } else {
      assert (a + b)[0] == a[0] && (a + b)[1..] == a[1..] + b;
      UnownedConcat(a[1..], b, owners, client);
    }
  }

  /** Where a rule of the committed list comes from: the record, or the list before, unowned by the client. */
  lemma CommittedAt(t: Table, record: Record, k: nat) returns (written: bool, j: nat)
    requires k < |CommitOne(t, record).rules|
    ensures written ==> j < |record.rules| && CommitOne(t, record).rules[k] == record.rules[j]
    ensures !written ==>
      && j < |t.rules| && CommitOne(t, record).rules[k] == t.rules[j] && !Owns(t.owners, t.rules[j].id, record.client)
  {
    written := k < |record.rules|;
    if written {
      j := k;
    } else {
      j := UnownedAt(t.rules, t.owners, record.client, k - |record.rules|);
    }
  }

  /** Rules a commit leaves in the list keep their owner. */
  lemma OwnerKept(t: Table, record: Record, r: nat)
    requires r < |t.rules| && Fresh(t.rules, t.owners, record) && !Owns(t.owners, t.rules[r].id, record.client)
    ensures var own := OwnersAfter(t.owners, record); var id := t.rules[r].id;
            (id in own <==> id in t.owners) && (id in own ==> own[id] == t.owners[id])
  {
  }

  lemma CommitKeepsFresh(t: Table, record: Record, later: Record)
    requires Fresh(t.rules, t.owners, record) && Fresh(t.rules, t.owners, later) && Apart(record, later)
    ensures Fresh(CommitOne(t, record).rules, CommitOne(t, record).owners, later)
  {
    var u := CommitOne(t, record);
    forall x, k | 0 <= x < |later.rules| && 0 <= k < |u.rules| && later.rules[x].id == u.rules[k].id
      ensures Owns(u.owners, u.rules[k].id, later.client)
    {
      var written, j := CommittedAt(t, record, k);
      if !written {
        OwnerKept(t, record, j);
      }
    }
  }

  /** After part of a batch, the table still fits the rest of it. */
  lemma {:induction false} BatchFits(t: Table, records: seq<Record>, n: nat, m: nat)
    requires Batch(t.rules, t.owners, records) && n <= m < |records|
    ensures var u := CommitAll(t, records, n); Fresh(u.rules, u.owners, records[m])
  {
    hide Fresh, Committed, OwnersAfter;
    if n > 0 {
      BatchFits(t, records, n - 1, n - 1);
      BatchFits(t, records, n - 1, m);
      assert Apart(records[n - 1], records[m]);
      CommitKeepsFresh(CommitAll(t, records, n - 1), records[n - 1], records[m]);
    }
  }

  // The list a batch leaves

  /** The rules of the first `n` records, the last record's first. */
  function Stacked(records: seq<Record>, n: nat): seq<Rule>
    requires n <= |records|
  {
    if n == 0 then [] else records[n - 1].rules + Stacked(records, n - 1)
  }

  function Clients(records: seq<Record>, n: nat): set<string>
    requires n <= |records|
  {
    set i | 0 <= i < n :: records[i].client
  }

  /** The rules none of the clients owns. */
  function Foreign(rules: seq<Rule>, owners: Owners, clients: set<string>): seq<Rule> {
    if rules == [] then []
    else
      (if rules[0].id in owners && owners[rules[0].id] in clients then [] else [rules[0]])
      + Foreign(rules[1..], owners, clients)
  }

  lemma {:induction false} ForeignNone(rules: seq<Rule>, owners: Owners)
    ensures Foreign(rules, owners, {}) == rules
  {
    if rules != [] {
      ForeignNone(rules[1..], owners);
    }
  }

  lemma {:induction false} ForeignAt(rules: seq<Rule>, owners: Owners, clients: set<string>, k: nat) returns (j: nat)
    requires k < |Foreign(rules, owners, clients)|
    ensures j < |rules| && Foreign(rules, owners, clients)[k] == rules[j]
    ensures !(rules[j].id in owners && owners[rules[j].id] in clients)
  {
    if rules[0].id in owners && owners[rules[0].id] in clients {
      j := ForeignAt(rules[1..], owners, clients, k);
      j := j + 1;
    } else if k == 0 {
      j := 0;
    } else {
      j := ForeignAt(rules[1..], owners, clients, k - 1);
      j := j + 1;
    }
  }

  /** Dropping one more client's rules, under owners that agree on what is there. */
  lemma {:induction false} ForeignMore(rules: seq<Rule>, owners: Owners, own: Owners, clients: set<string>, client: string)
    requires forall r :: 0 <= r < |rules| && !(rules[r].id in owners && owners[rules[r].id] in clients) ==>
      (Owns(own, rules[r].id, client) <==> Owns(owners, rules[r].id, client))
    ensures Unowned(Foreign(rules, owners, clients), own, client) == Foreign(rules, owners, clients + {client})
  {
    if rules != [] {
      ForeignMore(rules[1..], owners, own, clients, client);
      var rest := Foreign(rules[1..], owners, clients);
      if rules[0].id in owners && owners[rules[0].id] in clients {
        assert Foreign(rules, owners, clients) == rest;
      } else {
        UnownedConcat([rules[0]], rest, own, client);
      }
    }
  }

  lemma {:induction false} UnownedNone(rules: seq<Rule>, owners: Owners, client: string)
    requires forall r :: 0 <= r < |rules| ==> !Owns(owners, rules[r].id, client)
    ensures Unowned(rules, owners, client) == rules
  {
    if rules != [] {
      UnownedNone(rules[1..], owners, client);
    }
  }

  lemma {:induction false} StackedAt(records: seq<Record>, n: nat, k: nat) returns (j: nat, x: nat)
    requires n <= |records| && k < |Stacked(records, n)|
    ensures j < n && x < |records[j].rules| && Stacked(records, n)[k] == records[j].rules[x]
  {
    if k < |records[n - 1].rules| {
      j, x := n - 1, k;
    } else {
      j, x := StackedAt(records, n - 1, k - |records[n - 1].rules|);
    }
  }

  /** Every rule a record wrote is its client's. */
  lemma {:induction false} WrittenOwned(t: Table, records: seq<Record>, n: nat, j: nat, x: nat)
    requires Batch(t.rules, t.owners, records) && j < n <= |records| && x < |records[j].rules|
    ensures Owns(CommitAll(t, records, n).owners, records[j].rules[x].id, records[j].client)
  {
    if j < n - 1 {
      WrittenOwned(t, records, n - 1, j, x);
      assert Apart(records[j], records[n - 1]);
      OwnerStays(CommitAll(t, records, n - 1).owners, records[n - 1], records[j].rules[x].id);
    }
  }

  /** An id that a record neither writes nor owned keeps its owner. */
  lemma OwnerStays(owners: Owners, record: Record, id: string)
    requires !Owns(owners, id, record.client)
    requires forall x :: 0 <= x < |record.rules| ==> record.rules[x].id != id
    ensures var own := OwnersAfter(owners, record); (id in own <==> id in owners) && (id in own ==> own[id] == owners[id])
  {
  }

  /** A rule none of the clients owned keeps its owner through the batch. */
  lemma {:induction false} ForeignOwner(t: Table, records: seq<Record>, n: nat, r: nat)
    requires Batch(t.rules, t.owners, records) && n <= |records| && r < |t.rules|
    requires !(t.rules[r].id in t.owners && t.owners[t.rules[r].id] in Clients(records, n))
    ensures var own := CommitAll(t, records, n).owners; var id := t.rules[r].id;
            (id in own <==> id in t.owners) && (id in own ==> own[id] == t.owners[id])
  {
    if n > 0 {
      assert Clients(records, n) == Clients(records, n - 1) + {records[n - 1].client};
      ForeignOwner(t, records, n - 1, r);
      assert Fresh(t.rules, t.owners, records[n - 1]);
      OwnerStays(CommitAll(t, records, n - 1).owners, records[n - 1], t.rules[r].id);
    }
  }

  /** The records' rules, the last record's first, and then the rules none of their clients owned. */
  lemma {:induction false} BatchIs(t: Table, records: seq<Record>, n: nat)
    requires Batch(t.rules, t.owners, records) && n <= |records|
    ensures CommitAll(t, records, n).rules == Stacked(records, n) + Foreign(t.rules, t.owners, Clients(records, n))
  {
    hide Batch, Foreign, Unowned, OwnersAfter;
    if n == 0 {
      assert Clients(records, 0) == {};
      ForeignNone(t.rules, t.owners);
    } else {
      BatchIs(t, records, n - 1);
      BatchStep(t, records, n - 1);
      var last, earlier := records[n - 1].rules, Stacked(records, n - 1);
      var others := Foreign(t.rules, t.owners, Clients(records, n));
      assert last + (earlier + others) == last + earlier + others;
    }
  }

  lemma BatchStep(t: Table, records: seq<Record>, n: nat)
    requires Batch(t.rules, t.owners, records) && n < |records|
    ensures Unowned(Stacked(records, n) + Foreign(t.rules, t.owners, Clients(records, n)),
                    CommitAll(t, records, n).owners, records[n].client)
         == Stacked(records, n) + Foreign(t.rules, t.owners, Clients(records, n + 1))
  {
    hide Unowned, Foreign, Stacked, CommitAll, Fresh;
    var own, client := CommitAll(t, records, n).owners, records[n].client;
    var written, others := Stacked(records, n), Foreign(t.rules, t.owners, Clients(records, n));
    UnownedConcat(written, others, own, client);
    forall k | 0 <= k < |written|
      ensures !Owns(own, written[k].id, client)
    {
      var j, x := StackedAt(records, n, k);
      WrittenOwned(t, records, n, j, x);
      assert Apart(records[j], records[n]);
    }
    UnownedNone(written, own, client);
    forall r | 0 <= r < |t.rules| && !(t.rules[r].id in t.owners && t.owners[t.rules[r].id] in Clients(records, n))
      ensures Owns(own, t.rules[r].id, client) <==> Owns(t.owners, t.rules[r].id, client)
    {
      ForeignOwner(t, records, n, r);
    }
    ForeignMore(t.rules, t.owners, own, Clients(records, n), client);
    assert Clients(records, n + 1) == Clients(records, n) + {client};
  }

  // The order of a batch

  predicate RecordApplies(record: Record, q: Request, family: Families) {
    exists x :: 0 <= x < |record.rules| && Applies(record.rules[x], q, family)
  }

  /** No two records hold a rule that could serve the request. */
  predicate AtMostOne(records: seq<Record>, q: Request, family: Families) {
    forall i, j :: 0 <= i < j < |records| ==> !(RecordApplies(records[i], q, family) && RecordApplies(records[j], q, family))
  }

  lemma {:induction false} StackedNone(records: seq<Record>, n: nat, q: Request, family: Families)
    requires n <= |records| && forall i :: 0 <= i < n ==> !RecordApplies(records[i], q, family)
    ensures Candidates(Stacked(records, n), q, family) == []
  {
    if n > 0 {
      StackedNone(records, n - 1, q, family);
      CandidatesConcat(records[n - 1].rules, Stacked(records, n - 1), q, family);
      NoCandidates(records[n - 1].rules, q, family);
    }
  }

  lemma {:induction false} StackedOne(records: seq<Record>, n: nat, i: nat, q: Request, family: Families)
    requires i < n <= |records| && forall j :: 0 <= j < n && j != i ==> !RecordApplies(records[j], q, family)
    ensures Candidates(Stacked(records, n), q, family) == Candidates(records[i].rules, q, family)
  {
    CandidatesConcat(records[n - 1].rules, Stacked(records, n - 1), q, family);
    if i == n - 1 {
      StackedNone(records, n - 1, q, family);
    } else {
      StackedOne(records, n - 1, i, q, family);
      NoCandidates(records[n - 1].rules, q, family);
    }
  }

  lemma BatchCandidates(t: Table, records: seq<Record>, q: Request, family: Families)
    requires Batch(t.rules, t.owners, records)
    ensures Candidates(CommitAll(t, records, |records|).rules, q, family)
         == Candidates(Stacked(records, |records|), q, family)
            + Candidates(Foreign(t.rules, t.owners, Clients(records, |records|)), q, family)
  {
    BatchIs(t, records, |records|);
    CandidatesConcat(Stacked(records, |records|), Foreign(t.rules, t.owners, Clients(records, |records|)), q, family);
  }

  ghost predicate SameRecords(a: seq<Record>, b: seq<Record>) {
    forall record :: record in a <==> record in b
  }

  lemma SameClients(a: seq<Record>, b: seq<Record>)
    requires SameRecords(a, b)
    ensures Clients(a, |a|) == Clients(b, |b|)
  {
    ClientsWithin(a, b);
    ClientsWithin(b, a);
  }

  lemma ClientsWithin(a: seq<Record>, b: seq<Record>)
    requires forall record :: record in a ==> record in b
    ensures Clients(a, |a|) <= Clients(b, |b|)
  {
    forall i | 0 <= i < |a|
      ensures a[i].client in Clients(b, |b|)
    {
      assert a[i] in b;
      var j :| 0 <= j < |b| && b[j] == a[i];
    }
  }

  /** A request that at most one record's rules could serve does not see the order of the records. */
  lemma StackedAlike(t: Table, a: seq<Record>, b: seq<Record>, q: Request, family: Families)
    requires Batch(t.rules, t.owners, a) && Batch(t.rules, t.owners, b) && SameRecords(a, b) && AtMostOne(a, q, family)
    ensures Candidates(Stacked(a, |a|), q, family) == Candidates(Stacked(b, |b|), q, family)
  {
    if i :| 0 <= i < |a| && RecordApplies(a[i], q, family) {
      assert a[i] in b;
      var j :| 0 <= j < |b| && b[j] == a[i];
      StackedOne(a, |a|, i, q, family);
      forall k | 0 <= k < |b| && k != j
        ensures !RecordApplies(b[k], q, family)
      {
        assert b[k] in a;
        var l :| 0 <= l < |a| && a[l] == b[k];
        assert Apart(b[if k < j then k else j], b[if k < j then j else k]);
      }
      StackedOne(b, |b|, j, q, family);
    } else {
      StackedNone(a, |a|, q, family);
      forall k | 0 <= k < |b|
        ensures !RecordApplies(b[k], q, family)
      {
        assert b[k] in a;
      }
      StackedNone(b, |b|, q, family);
    }
  }

  lemma OneRecordDecides(t: Table, a: seq<Record>, b: seq<Record>, q: Request, family: Families)
    requires Batch(t.rules, t.owners, a) && Batch(t.rules, t.owners, b) && SameRecords(a, b) && AtMostOne(a, q, family)
    ensures SameWinner(CommitAll(t, a, |a|).rules, CommitAll(t, b, |b|).rules, q, family)
  {
    BatchCandidates(t, a, q, family);
    BatchCandidates(t, b, q, family);
    StackedAlike(t, a, b, q, family);
    SameClients(a, b);
    CandidatesDecide(CommitAll(t, a, |a|).rules, CommitAll(t, b, |b|).rules, q, family);
  }

  /** The record that is applied last serves the request, if any rule of its could. */
  lemma LastWins(t: Table, records: seq<Record>, q: Request, family: Families) returns (x: nat)
    requires Batch(t.rules, t.owners, records) && records != []
    requires RecordApplies(records[|records| - 1], q, family)
    ensures var last, rules := records[|records| - 1], CommitAll(t, records, |records|).rules;
            var w := Winner(rules, q, family);
            x < |last.rules| && w < |rules| && rules[w] == last.rules[x]
  {
    hide Batch, Foreign, CommitAll, Candidates;
    var n := |records|;
    var last := records[n - 1];
    BatchCandidates(t, records, q, family);
    CandidatesConcat(last.rules, Stacked(records, n - 1), q, family);
    var y :| 0 <= y < |last.rules| && Applies(last.rules[y], q, family);
    SomeCandidate(last.rules, q, family, y);
    x := CandidateFrom(last.rules, q, family, 0);
    WinnerIsFirstCandidate(CommitAll(t, records, n).rules, q, family);
  }

  function ToLast(records: seq<Record>, i: nat): seq<Record>
    requires i < |records|
  {
    records[..i] + records[i + 1..] + [records[i]]
  }

  lemma ToLastReorders(t: Table, records: seq<Record>, i: nat)
    requires Batch(t.rules, t.owners, records) && i < |records|
    ensures Batch(t.rules, t.owners, ToLast(records, i)) && SameRecords(records, ToLast(records, i))
    ensures |ToLast(records, i)| == |records| && ToLast(records, i)[|records| - 1] == records[i]
  {
    var b, n := ToLast(records, i), |records|;
    assert forall k :: 0 <= k < n ==> b[k] == records[if k < i then k else if k < n - 1 then k + 1 else i];
    forall j, k | 0 <= j < k < n
      ensures Apart(b[j], b[k])
    {
      var x, y := if j < i then j else j + 1, if k < i then k else if k < n - 1 then k + 1 else i;
      assert Apart(records[if x < y then x else y], records[if x < y then y else x]);
    }
    forall record
      ensures record in records <==> record in b
    {
      if record in records {
        var k :| 0 <= k < n && records[k] == record;
        assert b[if k < i then k else if k == i then n - 1 else k - 1] == record;
      }
    }
  }

  /** The batch in another order. */
  ghost predicate Reorders(t: Table, a: seq<Record>, b: seq<Record>) {
    Batch(t.rules, t.owners, b) && SameRecords(a, b)
  }

  /** Of two records that could each serve the request, whichever is applied last does. */
  lemma OrderMatters(t: Table, a: seq<Record>, i: nat, j: nat, q: Request, family: Families)
    requires Batch(t.rules, t.owners, a) && i < j < |a|
    requires RecordApplies(a[i], q, family) && RecordApplies(a[j], q, family)
    ensures exists b :: Reorders(t, a, b)
                        && !SameWinner(CommitAll(t, a, |a|).rules, CommitAll(t, b, |b|).rules, q, family)
  {
    var b, c := ToLast(a, i), ToLast(a, j);
    ToLastReorders(t, a, i);
    ToLastReorders(t, a, j);
    var x := LastWins(t, b, q, family);
    var y := LastWins(t, c, q, family);
    assert Apart(a[i], a[j]);
    assert a[i].rules[x] != a[j].rules[y];
    assert Reorders(t, a, b) && Reorders(t, a, c);
  }

  /** A batch routes a request alike in every order exactly if at most one of its records could serve it. */
  lemma OrderDoesNotMatterExactly(t: Table, a: seq<Record>, q: Request, family: Families)
    requires Batch(t.rules, t.owners, a)
    ensures (forall b :: Reorders(t, a, b) ==>
               SameWinner(CommitAll(t, a, |a|).rules, CommitAll(t, b, |b|).rules, q, family))
       <==> AtMostOne(a, q, family)
  {
    if AtMostOne(a, q, family) {
      forall b | Reorders(t, a, b)
        ensures SameWinner(CommitAll(t, a, |a|).rules, CommitAll(t, b, |b|).rules, q, family)
      {
        OneRecordDecides(t, a, b, q, family);
      }
    } else {
      var i, j :| 0 <= i < j < |a| && RecordApplies(a[i], q, family) && RecordApplies(a[j], q, family);
      OrderMatters(t, a, i, j, q, family);
    }
  }

  /** In particular every request, while each record's rules match its own client's key. */
  lemma OrderDoesNotMatter(t: Table, a: seq<Record>, b: seq<Record>, q: Request, family: Families)
    requires Batch(t.rules, t.owners, a) && Reorders(t, a, b)
    requires forall i :: 0 <= i < |a| ==> ForClient(a[i])
    ensures SameWinner(CommitAll(t, a, |a|).rules, CommitAll(t, b, |b|).rules, q, family)
  {
    forall i, j | 0 <= i < j < |a|
      ensures !(RecordApplies(a[i], q, family) && RecordApplies(a[j], q, family))
    {
      assert Apart(a[i], a[j]);
    }
    OneRecordDecides(t, a, b, q, family);
  }

  /** Two alias rules an operator has opened to every key, each retained by its client's review: the order shows. */
  lemma EditedOrderExample(family: Families)
    ensures var a := Rule("a", "alias", true, 0, None, Exact("m"), Inherit, Literal("x"));
            var b := Rule("b", "alias", true, 1, None, Exact("m"), Inherit, Literal("y"));
            var rules, owners, q := [a, b], map["a" := "c", "b" := "d"], Request(None, "m");
            var p := Reviewed(rules, owners, "c", "n", [], [], {});
            var r := Reviewed(rules, owners, "d", "n", [], [], {});
            && Resolve(CommitAll(Table(rules, owners), [p, r], 2).rules, q, family) == "y"
            && Resolve(CommitAll(Table(rules, owners), [r, p], 2).rules, q, family) == "x"
  {
    var a := Rule("a", "alias", true, 0, None, Exact("m"), Inherit, Literal("x"));
    var b := Rule("b", "alias", true, 1, None, Exact("m"), Inherit, Literal("y"));
    var rules, owners := [a, b], map["a" := "c", "b" := "d"];
    assert rules[1..] == [b] && [b][1..] == [];
    assert Retained([b], owners, "c", [], {}, 1) == Retained([], owners, "c", [], {}, 1);
    assert Retained([b], owners, "d", [], {}, 0) == [b.(position := 0)] + Retained([], owners, "d", [], {}, 1);
    var p, r := Reviewed(rules, owners, "c", "n", [], [], {}), Reviewed(rules, owners, "d", "n", [], [], {});
    assert p.rules == [a] && r.rules == [b.(position := 0)];
    assert CommitAll(Table(rules, owners), [p, r], 2).rules[0] == r.rules[0];
    assert CommitAll(Table(rules, owners), [r, p], 2).rules[0] == p.rules[0];
  }

  /** Reviews of two clients, with new ids of their own, have no rule in common. */
  lemma ReviewsAreApart(
    rules: seq<Rule>, owners: Owners, c: string, d: string, name: string, other: string, aliases: seq<Alias>,
    others: seq<Alias>, ids: seq<string>, otherIds: seq<string>, dropped: set<string>, otherDropped: set<string>)
    requires |ids| == |aliases| && |otherIds| == |others| && c != d
    requires forall k, l :: 0 <= k < |ids| && 0 <= l < |otherIds| ==> ids[k] != otherIds[l]
    requires forall k, r :: 0 <= k < |ids| && 0 <= r < |rules| ==> ids[k] != rules[r].id
    requires forall k, r :: 0 <= k < |otherIds| && 0 <= r < |rules| ==> otherIds[k] != rules[r].id
    ensures Apart(Reviewed(rules, owners, c, name, aliases, ids, dropped),
                  Reviewed(rules, owners, d, other, others, otherIds, otherDropped))
  {
    var a := Reviewed(rules, owners, c, name, aliases, ids, dropped);
    var b := Reviewed(rules, owners, d, other, others, otherIds, otherDropped);
    forall x, y | 0 <= x < |a.rules| && 0 <= y < |b.rules|
      ensures a.rules[x].id != b.rules[y].id
    {
      var i, s := ReviewedId(rules, owners, c, name, aliases, ids, dropped, x);
      var j, u := ReviewedId(rules, owners, d, other, others, otherIds, otherDropped, y);
    }
  }

  /** A reviewed rule's id is a new one, or that of a rule of the client's own. */
  lemma ReviewedId(
    rules: seq<Rule>, owners: Owners, client: string, name: string, aliases: seq<Alias>, ids: seq<string>,
    dropped: set<string>, x: nat)
    returns (i: nat, written: bool)
    requires |ids| == |aliases| && x < |Reviewed(rules, owners, client, name, aliases, ids, dropped).rules|
    ensures var id := Reviewed(rules, owners, client, name, aliases, ids, dropped).rules[x].id;
            if written then i < |ids| && id == ids[i] else i < |rules| && id == rules[i].id && Owns(owners, id, client)
  {
    written := x < |aliases|;
    i := x;
    if !written {
      i := RetainedAt(rules, owners, client, aliases, dropped, |aliases|, x - |aliases|);
    }
  }

  /** Reviews of one table make a batch: retained rules are the client's own, and fresh ids are new. */
  lemma ReviewIsFresh(
    rules: seq<Rule>, owners: Owners, client: string, name: string, aliases: seq<Alias>, ids: seq<string>,
    dropped: set<string>)
    requires |ids| == |aliases|
    requires forall k, r :: 0 <= k < |ids| && 0 <= r < |rules| ==> ids[k] != rules[r].id
    ensures Fresh(rules, owners, Reviewed(rules, owners, client, name, aliases, ids, dropped))
  {
    var record := Reviewed(rules, owners, client, name, aliases, ids, dropped);
    assert forall x :: 0 <= x < |aliases| ==> record.rules[x].id == ids[x];
    forall x, r | |aliases| <= x < |record.rules| && 0 <= r < |rules| && record.rules[x].id == rules[r].id
      ensures Owns(owners, rules[r].id, client)
    {
      var j := RetainedAt(rules, owners, client, aliases, dropped, |aliases|, x - |aliases|);
    }
  }
}
