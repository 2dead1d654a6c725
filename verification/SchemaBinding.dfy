/** What `constrain` is for: what a constrained schema admits obeys the constraint, and nothing else is lost. */
module SchemaBinding {
  import opened JsonValues
  import opened Wrappers
  import opened SchemaSemantics
  import opened SchemaConstraints

  /** A count is a whole number from 0 on, a measure is from 0 on, and a timestamp is text in the `date-time` format. */
  ghost predicate Meets(k: Constraint, rules: Rules, v: Json) {
    match k
    case Count => v.Num? ==> v.n >= 0.0 && v.n.Floor as real == v.n
    case NonNegative => v.Num? ==> v.n >= 0.0
    case DateTime => v.Str? ==> rules.format("date-time", v.s)
  }

  /** The type is one of these names, or a list with one of them in it. */
  predicate Typed(s: Json, names: set<string>)
    requires s.Obj?
  {
    match Get(s.fields, "type")
    case Some(Str(t)) => t in names
    case Some(Arr(types)) => exists i :: 0 <= i < |types| && types[i].Str? && types[i].s in names
    case _ => false
  }

  /** The type is given, and admits none of what the constraint is about. */
  predicate TypedApart(s: Json, k: Constraint)
    requires s.Obj?
  {
    match Get(s.fields, "type")
    case Some(Str(_)) => !Typed(s, if k.DateTime? then {"string"} else {"number", "integer"})
    case Some(Arr(_)) => !Typed(s, if k.DateTime? then {"string"} else {"number", "integer"})
    case _ => false
  }

  /** Draft 7 ignores what stands beside a reference. */
  predicate Judges(dialect: Dialect, s: Json)
    requires s.Obj?
  {
    dialect.Draft2020? || !IsReference(s)
  }

  /**
   * Whatever the schema admits goes through a place the constraint reaches: the schema's own type names the primitive or
   * leaves it out, or so it is for every branch of its `anyOf` or `oneOf`, or for some branch of its `allOf`.
   */
  ghost predicate Covered(dialect: Dialect, s: Json, k: Constraint)
    decreases s, 1
  {
    match s
    case Bool(b) => !b
    case Obj(_) =>
      && Judges(dialect, s)
      && (|| Typed(s, if k.DateTime? then {"string"} else {"number"})
          || TypedApart(s, k)
          || AllCovered(dialect, s, "anyOf", k)
          || AllCovered(dialect, s, "oneOf", k)
          || SomeCovered(dialect, s, k))
    case _ => true
  }

  ghost predicate AllCovered(dialect: Dialect, s: Json, key: string, k: Constraint)
    requires s.Obj?
    decreases s, 0
  {
    var list := Member(s, key);
    && list.Some? && list.value.Arr?
    && forall i :: 0 <= i < |list.value.items| ==> Covered(dialect, list.value.items[i], k)
  }

  ghost predicate SomeCovered(dialect: Dialect, s: Json, k: Constraint)
    requires s.Obj?
    decreases s, 0
  {
    var list := Member(s, "allOf");
    && list.Some? && list.value.Arr?
    && exists i :: 0 <= i < |list.value.items| && Covered(dialect, list.value.items[i], k)
  }

  /** Nowhere the constraint reaches did a stricter copy of its keyword stand. */
  ghost predicate NothingOverwritten(s: Json, k: Constraint)
    decreases s, 1
  {
    s.Obj? ==>
      && (Typed(s, if k.DateTime? then {"string"} else {"number"}) ==> NotLoosened(Get(s.fields, k.Keyword()), k))
      && NoneOverwritten(s, "anyOf", k) && NoneOverwritten(s, "oneOf", k) && NoneOverwritten(s, "allOf", k)
  }

  ghost predicate NoneOverwritten(s: Json, key: string, k: Constraint)
    requires s.Obj?
    decreases s, 0
  {
    var list := Member(s, key);
    list.Some? && list.value.Arr? ==>
      forall i :: 0 <= i < |list.value.items| ==> NothingOverwritten(list.value.items[i], k)
  }

  // ---- One schema ------------------------------------------------------------------------------

  lemma TypedNames(s: Json, name: string)
    requires s.Obj?
    ensures Typed(s, {name}) <==> Names(s.fields, name)
  {
    match Get(s.fields, "type")
    case Some(Arr(types)) =>
      if Str(name) in types {
        var i :| 0 <= i < |types| && types[i] == Str(name);
        assert types[i].Str? && types[i].s in {name};
      }
    case _ =>
  }

  /** The type after the constraint, where it named the primitive. */
  lemma TypeMeets(k: Constraint, types: Json, v: Json)
    requires k.Count? ==> v.Num? ==> v.n.Floor as real == v.n
    ensures k.Count? && types == Str("number") ==> TypeOk(Str("integer"), v) == TypeOk(types, v)
    ensures k.Count? && types.Arr? ==> TypeOk(Arr(RenameTypes(types.items, "number")), v) == TypeOk(types, v)
  {
    if k.Count? && types.Arr? {
      var renamed := RenameTypes(types.items, "number");
      forall i | 0 <= i < |types.items|
        ensures (renamed[i].Str? && TypeAdmits(renamed[i].s, v)) == (types.items[i].Str? && TypeAdmits(types.items[i].s, v))
      {
      }
    }
  }

  /** A union of types that names "number" admits whole numbers only, once constrained. */
  lemma RenamedAdmitsWhole(types: seq<Json>, v: Json)
    requires v.Num? && TypeOk(Arr(RenameTypes(types, "number")), v)
    ensures v.n.Floor as real == v.n
  {
    var renamed := RenameTypes(types, "number");
    var i :| 0 <= i < |renamed| && renamed[i].Str? && TypeAdmits(renamed[i].s, v);
    assert renamed[i] == RenameType(types[i], "number");
  }

  lemma TypeAfter(s: Json, k: Constraint)
    requires s.Obj?
    ensures Get(Constrain(s, k).fields, "type")
         == if !Typed(s, {if k.DateTime? then "string" else "number"}) || !k.Count? then Get(s.fields, "type")
            else
              match Get(s.fields, "type")
              case Some(Arr(types)) => Some(Arr(RenameTypes(types, "number")))
              case _ => Some(Str("integer"))
  {
    TypedNames(s, if k.DateTime? then "string" else "number");
    ConstrainedMember(s, k, "type");
    AssignedMember(s.fields, k, "type");
  }

  lemma KeywordAfter(s: Json, k: Constraint)
    requires s.Obj?
    ensures Get(Constrain(s, k).fields, k.Keyword())
         == if Typed(s, {if k.DateTime? then "string" else "number"})
            then Some(if k.DateTime? then Str("date-time") else Num(0.0)) else Get(s.fields, k.Keyword())
  {
    TypedNames(s, if k.DateTime? then "string" else "number");
    ConstrainedMember(s, k, k.Keyword());
    AssignedMember(s.fields, k, k.Keyword());
  }

  lemma OtherAfter(s: Json, k: Constraint, key: string)
    requires s.Obj? && key != "type" && key != k.Keyword() && key !in {"anyOf", "oneOf", "allOf"}
    ensures Get(Constrain(s, k).fields, key) == Get(s.fields, key)
  {
    ConstrainedMember(s, k, key);
    AssignedMember(s.fields, k, key);
  }

  lemma ListAfter(s: Json, k: Constraint, key: string)
    requires s.Obj? && key in {"anyOf", "oneOf", "allOf"}
    ensures var before := Member(s, key);
            Member(Constrain(s, k), key)
            == if before.Some? && before.value.Arr? then Some(ConstrainAll(before.value, k)) else before
  {
    ConstrainedMember(s, k, key);
  }

  /** What the keyword the constraint writes says, beside the type. */
  lemma PlainBinds(c: Context, s: Json, k: Constraint, v: Json)
    requires s.Obj? && Typed(s, {if k.DateTime? then "string" else "number"})
    requires PlainKeywordsOk(c, Constrain(s, k), v)
    ensures Meets(k, c.rules, v)
  {
    KeywordAfter(s, k);
    TypeAfter(s, k);
    PlainParts(k);
    hide Constrain;
    var r := Constrain(s, k);
    assert PlainOk(c.rules, k.Keyword(), Get(r.fields, k.Keyword()).value, v);
    if k.Count? && v.Num? {
      assert PlainOk(c.rules, "type", Get(r.fields, "type").value, v);
      match Get(s.fields, "type") {
        case Some(Arr(types)) => RenamedAdmitsWhole(types, v);
        case _ =>
      }
    }
  }

  lemma PlainParts(k: Constraint)
    ensures IsPlain("type") && IsPlain(k.Keyword()) && k.Keyword() == if k.DateTime? then "format" else "minimum"
  {
  }

  lemma PlainApart(c: Context, s: Json, k: Constraint, v: Json)
    requires s.Obj? && TypedApart(s, k) && PlainKeywordsOk(c, Constrain(s, k), v)
    ensures Meets(k, c.rules, v)
  {
    TypeAfter(s, k);
    PlainParts(k);
    hide Constrain;
    assert PlainOk(c.rules, "type", Get(Constrain(s, k).fields, "type").value, v);
  }

  /** A value that meets the constraint keeps the verdict of the plain keywords. */
  lemma PlainKept(c: Context, s: Json, k: Constraint, v: Json)
    requires s.Obj? && Meets(k, c.rules, v)
    requires Typed(s, {if k.DateTime? then "string" else "number"}) ==> NotLoosened(Get(s.fields, k.Keyword()), k)
    ensures PlainKeywordsOk(c, Constrain(s, k), v) == PlainKeywordsOk(c, s, v)
  {
    var r := Constrain(s, k);
    forall key | IsPlain(key)
      ensures KeywordOk(c.rules, r, key, v) == KeywordOk(c.rules, s, key, v)
    {
      KeywordKept(c.rules, s, k, key, v);
    }
    hide Constrain, IsPlain, PlainOk;
    assert PlainKeywordsOk(c, s, v) <==> forall key :: IsPlain(key) ==> KeywordOk(c.rules, s, key, v);
    assert PlainKeywordsOk(c, r, v) <==> forall key :: IsPlain(key) ==> KeywordOk(c.rules, r, key, v);
  }

  lemma KeywordKept(rules: Rules, s: Json, k: Constraint, key: string, v: Json)
    requires s.Obj? && Meets(k, rules, v) && IsPlain(key)
    requires Typed(s, {if k.DateTime? then "string" else "number"}) ==> NotLoosened(Get(s.fields, k.Keyword()), k)
    ensures KeywordOk(rules, Constrain(s, k), key, v) == KeywordOk(rules, s, key, v)
  {
    hide Constrain;
    if key == "type" {
      TypeAfter(s, k);
      if Has(s.fields, "type") {
        TypeMeets(k, Get(s.fields, "type").value, v);
      }
    } else if key == k.Keyword() {
      KeywordAfter(s, k);
    } else {
      PlainIsNoList(key);
      OtherAfter(s, k, key);
    }
  }

  lemma PlainIsNoList(key: string)
    requires IsPlain(key)
    ensures key !in {"anyOf", "oneOf", "allOf"}
  {
  }

  // ---- The parts the constraint leaves alone -------------------------------------------------

  /** The two schemas say the same under this keyword. */
  predicate Agree(a: Json, b: Json, key: string)
    requires a.Obj? && b.Obj?
  {
    Member(a, key) == Member(b, key)
  }

  lemma {:induction false} ContainedAgree(c: Context, a: Json, b: Json, items: seq<Json>, n: nat, fuel: nat)
    requires a.Obj? && b.Obj? && n <= |items| && Agree(a, b, "contains")
    ensures Contained(c, a, items, n, fuel) == Contained(c, b, items, n, fuel)
  {
    hide Valid;
    if n > 0 {
      ContainedAgree(c, a, b, items, n - 1, fuel);
    }
  }

  lemma ElementsAgree(c: Context, a: Json, b: Json, items: seq<Json>, fuel: nat)
    requires a.Obj? && b.Obj?
    requires Agree(a, b, "items") && Agree(a, b, "prefixItems") && Agree(a, b, "additionalItems")
    requires Agree(a, b, "contains") && Agree(a, b, "minContains") && Agree(a, b, "maxContains")
    ensures Elements(c, a, items, fuel) == Elements(c, b, items, fuel)
  {
    hide Valid;
    ContainedAgree(c, a, b, items, |items|, fuel);
    forall i | 0 <= i < |items|
      ensures ElementOk(c, a, i, items[i], fuel) == ElementOk(c, b, i, items[i], fuel)
    {
    }
  }

  lemma MembersAgree(c: Context, a: Json, b: Json, members: seq<Field>, fuel: nat)
    requires a.Obj? && b.Obj? && Agree(a, b, "properties") && Agree(a, b, "patternProperties")
    requires Agree(a, b, "additionalProperties") && Agree(a, b, "propertyNames")
    ensures Members(c, a, members, fuel) == Members(c, b, members, fuel)
  {
    hide Valid;
    forall i | 0 <= i < |members|
      ensures MemberOk(c, a, members[i], fuel) == MemberOk(c, b, members[i], fuel)
      ensures Holds(c, a, "propertyNames", Str(members[i].key), fuel)
           == Holds(c, b, "propertyNames", Str(members[i].key), fuel)
    {
      assert PatternHit(c, a, members[i].key) == PatternHit(c, b, members[i].key);
      assert PatternsOk(c, a, members[i], fuel) == PatternsOk(c, b, members[i], fuel);
    }
  }

  lemma DependsAgree(c: Context, a: Json, b: Json, v: Json, fuel: nat)
    requires a.Obj? && b.Obj? && v.Obj?
    requires Agree(a, b, "dependencies") && Agree(a, b, "dependentRequired") && Agree(a, b, "dependentSchemas")
    ensures Depends(c, a, v, fuel) == Depends(c, b, v, fuel)
  {
    hide Valid;
    forall i | 0 <= i < |v.fields|
      ensures DependencyOk(c, a, v.fields[i].key, v, fuel) == DependencyOk(c, b, v.fields[i].key, v, fuel)
    {
    }
  }

  lemma KeyAgrees(s: Json, k: Constraint, key: string)
    requires s.Obj? && key !in {"type", "format", "minimum", "anyOf", "oneOf", "allOf"}
    ensures Agree(Constrain(s, k), s, key)
  {
    OtherAfter(s, k, key);
  }

  lemma RestAgrees(c: Context, s: Json, k: Constraint, v: Json, fuel: nat)
    requires s.Obj?
    ensures v.Arr? ==> Elements(c, Constrain(s, k), v.items, fuel) == Elements(c, s, v.items, fuel)
    ensures v.Obj? ==> Members(c, Constrain(s, k), v.fields, fuel) == Members(c, s, v.fields, fuel)
    ensures v.Obj? ==> Depends(c, Constrain(s, k), v, fuel) == Depends(c, s, v, fuel)
  {
    hide Constrain, Elements, Members, Depends, Agree;
    var r := Constrain(s, k);
    forall key | key !in {"type", "format", "minimum", "anyOf", "oneOf", "allOf"}
      ensures Agree(r, s, key)
    {
      KeyAgrees(s, k, key);
    }
    if v.Arr? {
      ElementsAgree(c, r, s, v.items, fuel);
    }
    if v.Obj? {
      MembersAgree(c, r, s, v.fields, fuel);
      DependsAgree(c, r, s, v, fuel);
    }
  }

  lemma ConditionsAgree(c: Context, s: Json, k: Constraint, v: Json, fuel: nat)
    requires s.Obj?
    ensures var r := Constrain(s, k);
            && Has(r.fields, "not") == Has(s.fields, "not") && Holds(c, r, "not", v, fuel) == Holds(c, s, "not", v, fuel)
            && Has(r.fields, "if") == Has(s.fields, "if") && Holds(c, r, "if", v, fuel) == Holds(c, s, "if", v, fuel)
            && Holds(c, r, "then", v, fuel) == Holds(c, s, "then", v, fuel)
            && Holds(c, r, "else", v, fuel) == Holds(c, s, "else", v, fuel)
  {
    KeyAgrees(s, k, "not");
    KeyAgrees(s, k, "if");
    KeyAgrees(s, k, "then");
    KeyAgrees(s, k, "else");
    hide Constrain, Valid;
  }

  // ---- Nested lists --------------------------------------------------------------------------

  lemma PartsKept(c: Context, list: Json, k: Constraint, v: Json, fuel: nat)
    requires list.Arr? && Meets(k, c.rules, v)
    requires forall i :: 0 <= i < |list.items| ==> NothingOverwritten(list.items[i], k)
    ensures Verdicts(c, ConstrainAll(list, k), v, fuel) == Verdicts(c, list, v, fuel)
    decreases list, 2
  {
    forall i | 0 <= i < |list.items|
      ensures Valid(c, ConstrainAll(list, k).items[i], v, fuel) == Valid(c, list.items[i], v, fuel)
    {
      if list.items[i].Obj? {
        MeetingKept(c, list.items[i], k, v, fuel);
      }
    }
  }

  lemma ListKept(c: Context, s: Json, k: Constraint, key: string, v: Json, fuel: nat)
    requires s.Obj? && Meets(k, c.rules, v) && key in {"anyOf", "oneOf", "allOf"} && NoneOverwritten(s, key, k)
    ensures var before, after := Member(s, key), Member(Constrain(s, k), key);
            && (before.Some? && before.value.Arr? <==> after.Some? && after.value.Arr?)
            && (before.Some? && before.value.Arr? ==>
                  Verdicts(c, after.value, v, fuel) == Verdicts(c, before.value, v, fuel))
    decreases s, 0
  {
    ListAfter(s, k, key);
    if Has(s.fields, key) && Member(s, key).value.Arr? {
      PartsKept(c, Member(s, key).value, k, v, fuel);
    }
  }

  lemma CombinesKept(c: Context, s: Json, k: Constraint, v: Json, fuel: nat)
    requires s.Obj? && Meets(k, c.rules, v)
    requires NoneOverwritten(s, "anyOf", k) && NoneOverwritten(s, "oneOf", k) && NoneOverwritten(s, "allOf", k)
    ensures Combines(c, Constrain(s, k), v, fuel) == Combines(c, s, v, fuel)
    decreases s, 1
  {
    hide Constrain, Holds, Meets, NoneOverwritten, Verdicts;
    ListKept(c, s, k, "anyOf", v, fuel);
    ListKept(c, s, k, "oneOf", v, fuel);
    ListKept(c, s, k, "allOf", v, fuel);
    ConditionsAgree(c, s, k, v, fuel);
  }

  /** A value that meets the constraint keeps its verdict, whatever the nesting, where no stricter keyword was overwritten. */
  lemma MeetingKept(c: Context, s: Json, k: Constraint, v: Json, fuel: nat)
    requires s.Obj? && NothingOverwritten(s, k) && Meets(k, c.rules, v)
    ensures Valid(c, Constrain(s, k), v, fuel) == Valid(c, s, v, fuel)
    decreases s, 3
  {
    PlainKept(c, s, k, v);
    CombinesKept(c, s, k, v, fuel);
    RestAgrees(c, s, k, v, fuel);
    AssertsKept(c, s, k, v, fuel);
    SameReference(c, s, k, v, fuel);
  }

  lemma AssertsKept(c: Context, s: Json, k: Constraint, v: Json, fuel: nat)
    requires s.Obj?
    requires PlainKeywordsOk(c, Constrain(s, k), v) == PlainKeywordsOk(c, s, v)
    requires Combines(c, Constrain(s, k), v, fuel) == Combines(c, s, v, fuel)
    requires v.Arr? ==> Elements(c, Constrain(s, k), v.items, fuel) == Elements(c, s, v.items, fuel)
    requires v.Obj? ==> Members(c, Constrain(s, k), v.fields, fuel) == Members(c, s, v.fields, fuel)
    requires v.Obj? ==> Depends(c, Constrain(s, k), v, fuel) == Depends(c, s, v, fuel)
    ensures Asserts(c, Constrain(s, k), v, fuel) == Asserts(c, s, v, fuel)
  {
    hide Constrain, PlainKeywordsOk, Combines, Elements, Members, Depends;
  }

  /** The reference stays, so the verdict is the same where what the schema asserts is. */
  lemma SameReference(c: Context, s: Json, k: Constraint, v: Json, fuel: nat)
    requires s.Obj?
    ensures Asserts(c, Constrain(s, k), v, fuel) == Asserts(c, s, v, fuel) ==>
              Valid(c, Constrain(s, k), v, fuel) == Valid(c, s, v, fuel)
    ensures Judges(c.dialect, s) && Valid(c, Constrain(s, k), v, fuel) ==> Asserts(c, Constrain(s, k), v, fuel)
  {
    OtherAfter(s, k, "$ref");
    hide Constrain, Asserts;
    var r := Constrain(s, k);
    if IsReference(s) {
      var ref := Get(s.fields, "$ref").value.s;
      ValidReference(c, s, ref, Resolve(c, ref), v, fuel);
      ValidReference(c, r, ref, Resolve(c, ref), v, fuel);
    } else {
      ValidWithoutReference(c, s, v, fuel);
      ValidWithoutReference(c, r, v, fuel);
    }
  }

  /** Everything a constrained schema admits meets the constraint, where every way into it is covered. */
  lemma ConstraintBinds(c: Context, s: Json, k: Constraint, v: Json, fuel: nat)
    requires s.Obj? && Covered(c.dialect, s, k) && Valid(c, Constrain(s, k), v, fuel)
    ensures Meets(k, c.rules, v)
    decreases s, 2
  {
    SameReference(c, s, k, v, fuel);
    AssertedParts(c, Constrain(s, k), v, fuel);
    if Typed(s, if k.DateTime? then {"string"} else {"number"}) {
      PlainBinds(c, s, k, v);
    } else if TypedApart(s, k) {
      PlainApart(c, s, k, v);
    } else if AllCovered(c.dialect, s, "anyOf", k) {
      ListAfter(s, k, "anyOf");
      BranchBinds(c, Member(s, "anyOf").value, k, v, fuel);
    } else if AllCovered(c.dialect, s, "oneOf", k) {
      ListAfter(s, k, "oneOf");
      BranchBinds(c, Member(s, "oneOf").value, k, v, fuel);
    } else {
      ListAfter(s, k, "allOf");
      SomeBinds(c, Member(s, "allOf").value, k, v, fuel);
    }
  }

  lemma AssertedParts(c: Context, s: Json, v: Json, fuel: nat)
    requires s.Obj? && Asserts(c, s, v, fuel)
    ensures PlainKeywordsOk(c, s, v)
    ensures Member(s, "anyOf").Some? && Member(s, "anyOf").value.Arr? ==> true in Verdicts(c, Member(s, "anyOf").value, v, fuel)
    ensures Member(s, "oneOf").Some? && Member(s, "oneOf").value.Arr? ==> true in Verdicts(c, Member(s, "oneOf").value, v, fuel)
    ensures Member(s, "allOf").Some? && Member(s, "allOf").value.Arr? ==> false !in Verdicts(c, Member(s, "allOf").value, v, fuel)
  {
    hide Verdicts, PlainKeywordsOk;
    assert Combines(c, s, v, fuel);
    assert AllOf(c, s, v, fuel) && AnyOf(c, s, v, fuel) && OneOf(c, s, v, fuel);
    if Member(s, "oneOf").Some? && Member(s, "oneOf").value.Arr? {
      assert multiset(Verdicts(c, Member(s, "oneOf").value, v, fuel))[true] > 0;
    }
  }

  lemma BranchBinds(c: Context, list: Json, k: Constraint, v: Json, fuel: nat)
    requires list.Arr? && (forall i :: 0 <= i < |list.items| ==> Covered(c.dialect, list.items[i], k))
    requires true in Verdicts(c, ConstrainAll(list, k), v, fuel)
    ensures Meets(k, c.rules, v)
    decreases list, 3
  {
    var after := ConstrainAll(list, k);
    var i :| 0 <= i < |after.items| && Valid(c, after.items[i], v, fuel);
    PartBinds(c, list, k, v, fuel, i);
  }

  lemma SomeBinds(c: Context, list: Json, k: Constraint, v: Json, fuel: nat)
    requires list.Arr? && (exists i :: 0 <= i < |list.items| && Covered(c.dialect, list.items[i], k))
    requires false !in Verdicts(c, ConstrainAll(list, k), v, fuel)
    ensures Meets(k, c.rules, v)
    decreases list, 3
  {
    var i :| 0 <= i < |list.items| && Covered(c.dialect, list.items[i], k);
    assert Verdicts(c, ConstrainAll(list, k), v, fuel)[i];
    PartBinds(c, list, k, v, fuel, i);
  }

  lemma PartBinds(c: Context, list: Json, k: Constraint, v: Json, fuel: nat, i: nat)
    requires list.Arr? && i < |list.items| && Covered(c.dialect, list.items[i], k)
    requires Valid(c, ConstrainAll(list, k).items[i], v, fuel)
    ensures Meets(k, c.rules, v)
    decreases list, 2
  {
    hide Meets, Constrain;
    ConstrainedItem(list, k, i);
    var part := list.items[i];
    assert Covered(c.dialect, part, k);
    if part.Obj? {
      hide Covered, Valid, ConstrainAll;
      ConstraintBinds(c, part, k, v, fuel);
    }
  }

  lemma ConstrainedItem(list: Json, k: Constraint, i: nat)
    requires list.Arr? && i < |list.items|
    ensures ConstrainAll(list, k).items[i] == if list.items[i].Obj? then Constrain(list.items[i], k) else list.items[i]
  {
    hide Constrain;
  }

  /** So a constrained schema admits exactly what the schema did and meets the constraint. */
  lemma ConstrainMeans(c: Context, s: Json, k: Constraint, v: Json, fuel: nat)
    requires s.Obj? && Covered(c.dialect, s, k) && NothingOverwritten(s, k)
    ensures Valid(c, Constrain(s, k), v, fuel) <==> Valid(c, s, v, fuel) && Meets(k, c.rules, v)
  {
    hide Constrain, Valid, Meets, Covered, NothingOverwritten;
    if Meets(k, c.rules, v) {
      MeetingKept(c, s, k, v, fuel);
    } else if Valid(c, Constrain(s, k), v, fuel) {
      ConstraintBinds(c, s, k, v, fuel);
    }
  }

  // ---- In the document -----------------------------------------------------------------------

  /** The schema at the end of the path. */
  function Follow(s: Json, path: seq<Step>): Option<Json>
    decreases |path|
  {
    if path == [] then Some(s)
    else
      match Next(s, path[0])
      case Some(x) => Follow(x, path[1..])
      case None => None
  }

  /** Paths lead to schemas held by a name, to the branches of a list, and to the schemas a keyword holds alone. */
  lemma StepsLead(s: Json, name: string, i: nat, key: string)
    requires s.Obj?
    ensures key in {"properties", "patternProperties", "dependencies", "dependentSchemas", "definitions", "$defs"} ==>
      Next(s, Named(key, name))
      == match Get(s.fields, key) case Some(Obj(schemas)) => Get(schemas, name) case _ => None
    ensures key in {"anyOf", "oneOf", "allOf", "prefixItems", "items"} ==>
      Next(s, Item(key, i))
      == match Get(s.fields, key) case Some(Arr(parts)) => if i < |parts| then Some(parts[i]) else None case _ => None
    ensures key in {"items", "additionalItems", "additionalProperties", "propertyNames", "contains", "not", "if", "then",
                    "else"} ==>
      Next(s, Part(key)) == match Get(s.fields, key) case Some(Arr(_)) => None case part => part
  {
  }

  lemma SameForm(s: Json, path: seq<Step>, k: Constraint)
    ensures ConstrainAt(s, path, k).Arr? == s.Arr? && ConstrainAt(s, path, k).Obj? == s.Obj?
  {
  }

  lemma NextReplaced(s: Json, step: Step, y: Json)
    requires Next(s, step).Some? && (y.Arr? ==> Next(s, step).value.Arr?)
    ensures Next(Replaced(s, step, y), step) == Some(y)
  {
    ReplacedGet(s, step, y, step.key);
    match step
    case Part(_) =>
    case Item(_, _) =>
    case Named(key, name) => GetPut(Get(s.fields, key).value.fields, name, y, name);
  }

  /** A call on the schema at the end of a path leaves that schema constrained there. */
  lemma {:induction false} CallReaches(s: Json, path: seq<Step>, k: Constraint)
    requires Follow(s, path).Some?
    ensures Follow(ConstrainAt(s, path, k), path) == Some(ConstrainPart(Follow(s, path).value, k))
    decreases |path|
  {
    if path != [] {
      var x := Next(s, path[0]).value;
      CallReaches(x, path[1..], k);
      SameForm(x, path[1..], k);
      NextReplaced(s, path[0], ConstrainAt(x, path[1..], k));
    }
  }
}
