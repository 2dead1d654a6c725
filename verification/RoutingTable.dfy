/** The routing table under its UNIQUE position, and the renumbering a commit does (apps/server/src/client-service.ts). */
module RoutingTable {
  import opened Routing

  type Rules = map<string, Rule>

  function Erase(r: Rule): Rule {
    r.(position := 0)
  }

  function Erased(record: Record): Record {
    Record(record.client, seq(|record.rules|, i requires 0 <= i < |record.rules| => Erase(record.rules[i])))
  }

  ghost predicate Keyed(rules: Rules) {
    forall id :: id in rules ==> rules[id].id == id
  }

  /** What the database enforces after every statement. */
  ghost predicate UniquePositions(rules: Rules) {
    forall a, b :: a in rules && b in rules && a != b ==> rules[a].position != rules[b].position
  }

  ghost predicate Nonnegative(rules: Rules) {
    forall id :: id in rules ==> rules[id].position >= 0
  }

  predicate Free(rules: Rules, id: string, position: int) {
    forall o :: o in rules && o != id ==> rules[o].position != position
  }

  /** `SELECT id ... ORDER BY position`. */
  ghost predicate Ordered(rules: Rules, ids: seq<string>) {
    && (forall i :: 0 <= i < |ids| ==> ids[i] in rules)
    && (forall id :: id in rules ==> id in ids)
    && forall i, j :: 0 <= i < j < |ids| ==> rules[ids[i]].position < rules[ids[j]].position
  }

  lemma EmptyOrder(rules: Rules, a: seq<string>, b: seq<string>)
    requires Ordered(rules, a) && Ordered(rules, b)
    ensures a == [] ==> b == []
  {
    if b != [] {
      assert b[0] in a;
    }
  }

  lemma SameFirst(rules: Rules, a: seq<string>, b: seq<string>)
    requires Ordered(rules, a) && Ordered(rules, b) && a != [] && b != []
    ensures a[0] == b[0]
  {
    assert a[0] in b && b[0] in a;
    var i :| 0 <= i < |b| && b[i] == a[0];
    var j :| 0 <= j < |a| && a[j] == b[0];
  }

  /** The order is determined by the positions. */
  lemma {:induction false} OrderedUnique(rules: Rules, a: seq<string>, b: seq<string>)
    requires Ordered(rules, a) && Ordered(rules, b)
    ensures a == b
    decreases |a|
  {
    if a == [] {
      EmptyOrder(rules, a, b);
    } else if b == [] {
      EmptyOrder(rules, b, a);
    } else {
      SameFirst(rules, a, b);
      OrderedTail(rules, a);
      OrderedTail(rules, b);
      OrderedUnique(rules - {a[0]}, a[1..], b[1..]);
      assert a == [a[0]] + a[1..] && b == [b[0]] + b[1..];
    }
  }

  lemma OrderedTail(rules: Rules, a: seq<string>)
    requires Ordered(rules, a) && a != []
    ensures Ordered(rules - {a[0]}, a[1..])
  {
    var less := rules - {a[0]};
    forall id | id in less
      ensures id in a[1..]
    {
      assert id in a;
      var i :| 0 <= i < |a| && a[i] == id;
      assert a[1..][i - 1] == id;
    }
    forall i | 0 <= i < |a[1..]|
      ensures a[1..][i] in less
    {
      assert a[1..][i] == a[i + 1];
      assert rules[a[0]].position < rules[a[i + 1]].position;
    }
  }

  /** The ids the client does not own, in order. */
  function Kept(ids: seq<string>, owners: Owners, client: string): seq<string> {
    if ids == [] then []
    else (if Owns(owners, ids[0], client) then [] else [ids[0]]) + Kept(ids[1..], owners, client)
  }

  function RulesOf(rules: Rules, ids: seq<string>): seq<Rule>
    requires forall i :: 0 <= i < |ids| ==> ids[i] in rules
  {
    seq(|ids|, i requires 0 <= i < |ids| => Erase(rules[ids[i]]))
  }

  lemma {:induction false} KeptIsUnowned(rules: Rules, ids: seq<string>, owners: Owners, client: string)
    requires Keyed(rules) && forall i :: 0 <= i < |ids| ==> ids[i] in rules
    ensures forall i :: 0 <= i < |Kept(ids, owners, client)| ==> Kept(ids, owners, client)[i] in rules
    ensures RulesOf(rules, Kept(ids, owners, client)) == Unowned(RulesOf(rules, ids), owners, client)
  {
    if ids != [] {
      KeptIsUnowned(rules, ids[1..], owners, client);
      assert RulesOf(rules, ids)[1..] == RulesOf(rules, ids[1..]);
      assert RulesOf(rules, ids)[0].id == ids[0];
    }
  }

  /** Kept ids keep their relative order. */
  lemma {:induction false} KeptPair(ids: seq<string>, owners: Owners, client: string, k: nat, l: nat) returns (i: nat, j: nat)
    requires k <= l < |Kept(ids, owners, client)|
    ensures i <= j < |ids| && Kept(ids, owners, client)[k] == ids[i] && Kept(ids, owners, client)[l] == ids[j]
    ensures (if k < l then i < j else i == j) && !Owns(owners, ids[i], client)
  {
    if Owns(owners, ids[0], client) {
      i, j := KeptPair(ids[1..], owners, client, k, l);
      i, j := i + 1, j + 1;
    } else if l == 0 {
      i, j := 0, 0;
    } else {
      i, j := KeptPair(ids[1..], owners, client, if k > 0 then k - 1 else l - 1, l - 1);
      i, j := if k > 0 then i + 1 else 0, j + 1;
    }
  }

  lemma {:induction false} KeptHas(ids: seq<string>, owners: Owners, client: string, id: string)
    requires id in ids && !Owns(owners, id, client)
    ensures id in Kept(ids, owners, client)
  {
    if ids[0] != id {
      KeptHas(ids[1..], owners, client, id);
    }
  }

  function Dropped(rules: Rules, owners: Owners, client: string): Rules {
    map id | id in rules && !Owns(owners, id, client) :: rules[id]
  }

  lemma KeptOrdered(rules: Rules, ids: seq<string>, owners: Owners, client: string)
    requires Ordered(rules, ids)
    ensures Ordered(Dropped(rules, owners, client), Kept(ids, owners, client))
  {
    var dropped, kept := Dropped(rules, owners, client), Kept(ids, owners, client);
    forall k | 0 <= k < |kept|
      ensures kept[k] in dropped
    {
      var i, j := KeptPair(ids, owners, client, k, k);
    }
    forall id | id in dropped
      ensures id in kept
    {
      KeptHas(ids, owners, client, id);
    }
    forall k, l | 0 <= k < l < |kept|
      ensures dropped[kept[k]].position < dropped[kept[l]].position
    {
      var i, j := KeptPair(ids, owners, client, k, l);
    }
  }

  /** Every rule's position becomes its place: the written rules first, then the kept ones. */
  ghost predicate Renumbered(kept: Rules, order: seq<string>, written: seq<Rule>, after: Rules)
    requires forall i :: 0 <= i < |order| ==> order[i] in kept
  {
    && (forall id :: id in after <==> id in kept || exists i :: 0 <= i < |written| && written[i].id == id)
    && (forall i :: 0 <= i < |written| ==> written[i].id in after && after[written[i].id] == written[i])
    && forall i :: 0 <= i < |order| ==>
         order[i] in after && after[order[i]] == kept[order[i]].(position := |written| + i)
  }

  /** Rules a review wrote: distinct ids not kept by the table, and positions 0, 1, and so on. */
  ghost predicate Writable(kept: Rules, written: seq<Rule>) {
    && (forall i, j :: 0 <= i < j < |written| ==> written[i].id != written[j].id)
    && forall i :: 0 <= i < |written| ==> written[i].id !in kept && written[i].position == i
  }

  function Ids(rules: seq<Rule>): seq<string> {
    seq(|rules|, i requires 0 <= i < |rules| => rules[i].id)
  }

  lemma RenumberedOrder(kept: Rules, order: seq<string>, written: seq<Rule>, after: Rules)
    requires Ordered(kept, order) && Writable(kept, written) && Renumbered(kept, order, written, after)
    ensures Ordered(after, Ids(written) + order)
    ensures forall i :: 0 <= i < |Ids(written) + order| ==> after[(Ids(written) + order)[i]].position == i
  {
    var all := Ids(written) + order;
    forall i | 0 <= i < |all|
      ensures all[i] in after && after[all[i]].position == i
    {
      if i < |written| {
        assert all[i] == written[i].id;
      } else {
        assert all[i] == order[i - |written|];
      }
    }
    forall id | id in after
      ensures id in all
    {
      if id in kept {
        assert id in order;
      } else {
        var i :| 0 <= i < |written| && written[i].id == id;
        assert all[i] == id;
      }
    }
  }

  /** The listing after renumbering: what was written, then what was kept, in its order. */
  lemma RenumberedListing(kept: Rules, order: seq<string>, record: Record, after: Rules)
    requires Ordered(kept, order) && Writable(kept, record.rules) && Renumbered(kept, order, record.rules, after)
    ensures Ordered(after, Ids(record.rules) + order)
    ensures RulesOf(after, Ids(record.rules) + order) == Erased(record).rules + RulesOf(kept, order)
  {
    hide RulesOf, Ids, Erased, Writable;
    var written := record.rules;
    RenumberedOrder(kept, order, written, after);
    WrittenListing(record, after);
    KeptListed(kept, order, written, after);
    RulesOfConcat(after, Ids(written), order);
  }

  lemma RulesOfConcat(rules: Rules, a: seq<string>, b: seq<string>)
    requires forall i :: 0 <= i < |a| ==> a[i] in rules
    requires forall i :: 0 <= i < |b| ==> b[i] in rules
    ensures forall i :: 0 <= i < |a + b| ==> (a + b)[i] in rules
    ensures RulesOf(rules, a + b) == RulesOf(rules, a) + RulesOf(rules, b)
  {
  }

  lemma WrittenListing(record: Record, after: Rules)
    requires forall i :: 0 <= i < |record.rules| ==>
      record.rules[i].id in after && after[record.rules[i].id] == record.rules[i]
    ensures forall i :: 0 <= i < |Ids(record.rules)| ==> Ids(record.rules)[i] in after
    ensures RulesOf(after, Ids(record.rules)) == Erased(record).rules
  {
    assert forall i :: 0 <= i < |record.rules| ==> Ids(record.rules)[i] == record.rules[i].id;
  }

  lemma KeptListed(kept: Rules, order: seq<string>, written: seq<Rule>, after: Rules)
    requires forall i :: 0 <= i < |order| ==> order[i] in kept
    requires Renumbered(kept, order, written, after)
    ensures forall i :: 0 <= i < |order| ==> order[i] in after
    ensures RulesOf(after, order) == RulesOf(kept, order)
  {
  }

  lemma KeptListing(before: Rules, ids: seq<string>, owners: Owners, client: string, order: seq<string>)
    requires Keyed(before) && Ordered(before, ids) && Ordered(Dropped(before, owners, client), order)
    ensures RulesOf(Dropped(before, owners, client), order) == Unowned(RulesOf(before, ids), owners, client)
  {
    var kept := Dropped(before, owners, client);
    KeptOrdered(before, ids, owners, client);
    OrderedUnique(kept, order, Kept(ids, owners, client));
    KeptIsUnowned(before, ids, owners, client);
    assert RulesOf(kept, order) == RulesOf(before, order);
  }

  /** On the listing in position order, with positions set aside, a commit is `Committed`. */
  lemma CommitListing(
    before: Rules, ids: seq<string>, owners: Owners, record: Record, order: seq<string>, after: Rules)
    requires Keyed(before) && Ordered(before, ids)
    requires var kept := Dropped(before, owners, record.client);
             && Ordered(kept, order) && Writable(kept, record.rules)
             && if record.rules == [] then after == kept else Renumbered(kept, order, record.rules, after)
    ensures Ordered(after, Ids(record.rules) + order)
    ensures RulesOf(after, Ids(record.rules) + order) == Committed(RulesOf(before, ids), owners, Erased(record))
  {
    var kept := Dropped(before, owners, record.client);
    KeptListing(before, ids, owners, record.client, order);
    if record.rules == [] {
      assert Ids(record.rules) + order == order;
      assert Erased(record).rules == [];
      assert Committed(RulesOf(before, ids), owners, Erased(record)) == Unowned(RulesOf(before, ids), owners, record.client);
    } else {
      RenumberedListing(kept, order, record, after);
    }
  }

  function ErasedAll(records: seq<Record>): seq<Record> {
    seq(|records|, i requires 0 <= i < |records| => Erased(records[i]))
  }

  /** As the review numbers them: distinct ids, and positions 0, 1, and so on. */
  predicate Numbered(record: Record) {
    && (forall i, j :: 0 <= i < j < |record.rules| ==> record.rules[i].id != record.rules[j].id)
    && forall i :: 0 <= i < |record.rules| ==> record.rules[i].position == i
  }

  lemma FreshIsWritable(rules: Rules, ids: seq<string>, owners: Owners, record: Record)
    requires Keyed(rules) && Ordered(rules, ids) && Numbered(record)
    requires Fresh(RulesOf(rules, ids), owners, Erased(record))
    ensures Writable(Dropped(rules, owners, record.client), record.rules)
  {
    forall i | 0 <= i < |record.rules|
      ensures record.rules[i].id !in Dropped(rules, owners, record.client)
    {
      if record.rules[i].id in rules {
        assert record.rules[i].id in ids;
        var r :| 0 <= r < |ids| && ids[r] == record.rules[i].id;
        assert Erased(record).rules[i].id == RulesOf(rules, ids)[r].id;
      }
    }
  }

  lemma OwnersAfterErased(owners: Owners, record: Record)
    ensures OwnersAfter(owners, Erased(record)) == OwnersAfter(owners, record)
  {
    var erased := Erased(record);
    assert forall i :: 0 <= i < |record.rules| ==> erased.rules[i].id == record.rules[i].id;
    var written := set i | 0 <= i < |record.rules| :: record.rules[i].id;
    assert written == set i | 0 <= i < |erased.rules| :: erased.rules[i].id;
  }

  /** A position none of the other listed rules has is free. */
  lemma OthersElsewhere(base: Rules, remaining: seq<string>, rules: Rules, index: nat, position: int)
    requires Ordered(base, remaining) && rules.Keys == base.Keys && index < |remaining|
    requires forall i :: 0 <= i < |remaining| && i != index ==> rules[remaining[i]].position != position
    ensures Free(rules, remaining[index], position)
  {
    forall o | o in rules && o != remaining[index]
      ensures rules[o].position != position
    {
      assert o in remaining;
      var i :| 0 <= i < |remaining| && remaining[i] == o;
    }
  }

  lemma OrderedDistinct(rules: Rules, ids: seq<string>)
    requires Ordered(rules, ids)
    ensures forall i, j :: 0 <= i < j < |ids| ==> ids[i] != ids[j]
    ensures forall i :: 0 <= i < |ids| ==> ids[i] in rules
  {
  }

  /** The first `n` written rules are saved beside the kept ones, which stand after them all. */
  ghost predicate Saved(base: Rules, remaining: seq<string>, written: seq<Rule>, n: nat, rules: Rules)
    requires n <= |written| && forall i :: 0 <= i < |remaining| ==> remaining[i] in base
  {
    && (forall id :: id in rules <==> id in base || exists i :: 0 <= i < n && written[i].id == id)
    && (forall i :: 0 <= i < n ==> written[i].id in rules && rules[written[i].id] == written[i])
    && forall i :: 0 <= i < |remaining| ==>
         remaining[i] in rules && rules[remaining[i]] == base[remaining[i]].(position := |written| + i)
  }

  lemma NoneSaved(base: Rules, remaining: seq<string>, written: seq<Rule>, rules: Rules)
    requires rules.Keys == base.Keys && forall i :: 0 <= i < |remaining| ==> remaining[i] in base
    requires forall i :: 0 <= i < |remaining| ==> rules[remaining[i]] == base[remaining[i]].(position := |written| + i)
    ensures Saved(base, remaining, written, 0, rules)
  {
    assert forall id :: id in rules <==> id in base;
  }

  lemma AllSaved(base: Rules, remaining: seq<string>, written: seq<Rule>, rules: Rules)
    requires forall i :: 0 <= i < |remaining| ==> remaining[i] in base
    requires Saved(base, remaining, written, |written|, rules)
    ensures Renumbered(base, remaining, written, rules)
  {
  }

  /** The next written rule's place is free. */
  lemma NextPlaceFree(base: Rules, remaining: seq<string>, written: seq<Rule>, n: nat, rules: Rules)
    requires Ordered(base, remaining) && Writable(base, written) && n < |written|
    requires Saved(base, remaining, written, n, rules)
    ensures Free(rules, written[n].id, written[n].position)
  {
    forall o | o in rules && o != written[n].id
      ensures rules[o].position != written[n].position
    {
      if o in base {
        assert o in remaining;
        var i :| 0 <= i < |remaining| && remaining[i] == o;
      }
    }
  }

  lemma NextSaved(base: Rules, remaining: seq<string>, written: seq<Rule>, n: nat, rules: Rules)
    requires (forall i :: 0 <= i < |remaining| ==> remaining[i] in base) && Writable(base, written) && n < |written|
    requires Saved(base, remaining, written, n, rules)
    ensures Saved(base, remaining, written, n + 1, rules[written[n].id := written[n]])
  {
    var id := written[n].id;
    var after := rules[id := written[n]];
    assert id !in base && forall i :: 0 <= i < n ==> written[i].id != id;
    assert forall i :: 0 <= i < |remaining| ==> remaining[i] != id;
    hide Writable;
    forall o
      ensures o in after <==> o in base || exists i :: 0 <= i < n + 1 && written[i].id == o
    {
      if o in rules && o !in base {
        var i :| 0 <= i < n && written[i].id == o;
      }
    }
  }

  lemma RenumberedKeyed(base: Rules, remaining: seq<string>, written: seq<Rule>, after: Rules)
    requires Keyed(base) && Ordered(base, remaining) && Writable(base, written)
    requires Renumbered(base, remaining, written, after)
    ensures Keyed(after) && Nonnegative(after)
  {
    forall id | id in after
      ensures after[id].id == id && after[id].position >= 0
    {
      if id in base {
        assert id in remaining;
        var i :| 0 <= i < |remaining| && remaining[i] == id;
      }
    }
  }

  class RuleTable {
    var rules: Rules
    var owners: Owners

    ghost predicate Valid()
      reads this
    {
      Keyed(rules) && UniquePositions(rules) && Nonnegative(rules)
    }

    constructor (rules: Rules, owners: Owners)
      ensures this.rules == rules && this.owners == owners
    {
      this.rules, this.owners := rules, owners;
    }

    /** One UPDATE; the table must stay free of duplicates. */
    method SetPosition(id: string, position: int)
      requires id in rules && Free(rules, id, position)
      requires UniquePositions(rules)
      modifies this`rules
      ensures UniquePositions(rules)
      ensures rules == old(rules)[id := old(rules)[id].(position := position)]
    {
      rules := rules[id := rules[id].(position := position)];
    }

    /** `saveRuleInTransaction`, once past its check that no other rule holds the position. */
    method Save(rule: Rule)
      requires Free(rules, rule.id, rule.position)
      requires UniquePositions(rules)
      modifies this`rules
      ensures UniquePositions(rules)
      ensures rules == old(rules)[rule.id := rule]
    {
      rules := rules[rule.id := rule];
    }

    /**
     * `applyPreparedInTransaction`: drop the client's alias rules, then, if the review wrote any, move the others out
     * of the way below zero, give them the places after the written ones, and save those at 0, 1, and so on.
     */
    method Apply(record: Record) returns (ghost order: seq<string>)
      requires Valid() && Writable(Dropped(rules, owners, record.client), record.rules)
      modifies this
      ensures Valid() && owners == OwnersAfter(old(owners), record)
      ensures ghost var kept := Dropped(old(rules), old(owners), record.client);
              && Ordered(kept, order)
              && if record.rules == [] then rules == kept else Renumbered(kept, order, record.rules, rules)
    {
      DeleteOwned(record.client);
      var remaining := SelectByPosition();
      order := remaining;
      if record.rules != [] {
        Renumber(remaining, record.rules);
      }
      owners := OwnersAfter(owners, record);
    }

    /**
     * The records of a bulk or global commit, one after another. No statement ever puts two rules on one position, and
     * the table ends as the list model says.
     */
    method ApplyAll(records: seq<Record>, ghost ids: seq<string>) returns (ghost order: seq<string>)
      requires Valid() && Ordered(rules, ids)
      requires Batch(RulesOf(rules, ids), owners, ErasedAll(records))
      requires forall i :: 0 <= i < |records| ==> Numbered(records[i])
      modifies this
      ensures Valid() && Ordered(rules, order)
      ensures Routing.Table(RulesOf(rules, order), owners)
           == CommitAll(Routing.Table(RulesOf(old(rules), ids), old(owners)), ErasedAll(records), |records|)
    {
      order := ids;
      ghost var start := Routing.Table(RulesOf(rules, ids), owners);
      ghost var erased := ErasedAll(records);
      for n := 0 to |records|
        invariant Valid() && Ordered(rules, order)
        invariant Routing.Table(RulesOf(rules, order), owners) == CommitAll(start, erased, n)
      {
        ghost var before, owned, was := rules, owners, order;
        BatchFits(start, erased, n, n);
        FreshIsWritable(rules, order, owners, records[n]);
        ghost var kept := Apply(records[n]);
        CommitListing(before, was, owned, records[n], kept, rules);
        OwnersAfterErased(owned, records[n]);
        order := Ids(records[n].rules) + kept;
      }
    }

    method DeleteOwned(client: string)
      requires Valid()
      modifies this`rules
      ensures Valid() && rules == Dropped(old(rules), owners, client)
    {
      var left := set id | id in owners && owners[id] == client;
      while left != {}
        invariant forall id :: id in left ==> Owns(owners, id, client)
        invariant forall id :: id in rules <==> id in old(rules) && (Owns(owners, id, client) ==> id in left)
        invariant forall id :: id in rules ==> rules[id] == old(rules)[id]
      {
        var id :| id in left;
        rules := rules - {id};
        left := left - {id};
      }
    }

    method Renumber(remaining: seq<string>, written: seq<Rule>)
      requires Valid() && Ordered(rules, remaining) && Writable(rules, written)
      modifies this`rules
      ensures Valid() && Renumbered(old(rules), remaining, written, rules)
    {
      MoveAway(remaining);
      MoveBack(old(rules), remaining, |written|);
      SaveAll(old(rules), remaining, written);
    }

    method MoveAway(remaining: seq<string>)
      requires Valid() && Ordered(rules, remaining)
      modifies this`rules
      ensures UniquePositions(rules) && rules.Keys == old(rules.Keys)
      ensures forall i :: 0 <= i < |remaining| ==> rules[remaining[i]] == old(rules)[remaining[i]].(position := -i - 1)
    {
      OrderedDistinct(rules, remaining);
      hide Ordered, UniquePositions, Keyed, Free;
      for index := 0 to |remaining|
        invariant UniquePositions(rules) && rules.Keys == old(rules.Keys)
        invariant forall i :: 0 <= i < index ==> rules[remaining[i]] == old(rules)[remaining[i]].(position := -i - 1)
        invariant forall i :: index <= i < |remaining| ==> rules[remaining[i]] == old(rules)[remaining[i]]
      {
        OthersElsewhere(old(rules), remaining, rules, index, -index - 1);
        SetPosition(remaining[index], -index - 1);
      }
    }

    method MoveBack(ghost base: Rules, remaining: seq<string>, offset: nat)
      requires UniquePositions(rules) && Ordered(base, remaining) && rules.Keys == base.Keys
      requires forall i :: 0 <= i < |remaining| ==> rules[remaining[i]] == base[remaining[i]].(position := -i - 1)
      modifies this`rules
      ensures UniquePositions(rules) && rules.Keys == base.Keys
      ensures forall i :: 0 <= i < |remaining| ==> rules[remaining[i]] == base[remaining[i]].(position := offset + i)
    {
      OrderedDistinct(base, remaining);
      hide Ordered, UniquePositions, Keyed, Free;
      for index := 0 to |remaining|
        invariant UniquePositions(rules) && rules.Keys == base.Keys
        invariant forall i :: 0 <= i < index ==> rules[remaining[i]] == base[remaining[i]].(position := offset + i)
        invariant forall i :: index <= i < |remaining| ==> rules[remaining[i]] == base[remaining[i]].(position := -i - 1)
      {
        OthersElsewhere(base, remaining, rules, index, offset + index);
        SetPosition(remaining[index], index + offset);
      }
    }

    method SaveAll(ghost base: Rules, ghost remaining: seq<string>, written: seq<Rule>)
      requires UniquePositions(rules) && Ordered(base, remaining) && rules.Keys == base.Keys
      requires Keyed(base) && Writable(base, written)
      requires forall i :: 0 <= i < |remaining| ==> rules[remaining[i]] == base[remaining[i]].(position := |written| + i)
      modifies this`rules
      ensures Valid() && Renumbered(base, remaining, written, rules)
    {
      NoneSaved(base, remaining, written, rules);
      hide UniquePositions, Keyed, Free, Nonnegative, Saved, Writable;
      for n := 0 to |written|
        invariant UniquePositions(rules) && Saved(base, remaining, written, n, rules)
      {
        NextPlaceFree(base, remaining, written, n, rules);
        NextSaved(base, remaining, written, n, rules);
        Save(written[n]);
      }
      AllSaved(base, remaining, written, rules);
      RenumberedKeyed(base, remaining, written, rules);
    }

    method SelectByPosition() returns (ids: seq<string>)
      requires UniquePositions(rules)
      ensures Ordered(rules, ids)
    {
      hide UniquePositions;
      ids := [];
      var left := rules.Keys;
      while left != {}
        invariant left <= rules.Keys
        invariant forall i :: 0 <= i < |ids| ==> ids[i] in rules && ids[i] !in left
        invariant forall id :: id in rules ==> id in ids || id in left
        invariant forall i, j :: 0 <= i < j < |ids| ==> rules[ids[i]].position < rules[ids[j]].position
        invariant forall i, id :: 0 <= i < |ids| && id in left ==> rules[ids[i]].position < rules[id].position
      {
        var least := Least(left);
        ids := ids + [least];
        left := left - {least};
      }
    }

    method Least(left: set<string>) returns (least: string)
      requires left != {} && left <= rules.Keys && UniquePositions(rules)
      ensures least in left && forall id :: id in left && id != least ==> rules[least].position < rules[id].position
    {
      least :| least in left;
      var rest := left - {least};
      while rest != {}
        invariant rest <= left && least in left
        invariant forall id :: id in left - rest && id != least ==> rules[least].position < rules[id].position
      {
        var id :| id in rest;
        rest := rest - {id};
        if rules[id].position < rules[least].position {
          least := id;
        }
      }
    }
  }
}