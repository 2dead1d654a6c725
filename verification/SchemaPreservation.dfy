/**
 * The translation keeps the verdict: an instance is valid under a Draft 7 schema exactly when it is
 * valid under the translated schema read as 2020-12, at every bound on the references followed.
 */
module SchemaPreservation {
  import opened JsonValues
  import opened Wrappers
  import opened SchemaTranslation
  import opened SchemaSemantics

  /** Keywords holding one schema. */
  const SchemaKeywords: set<string> :=
    {"not", "if", "then", "else", "additionalProperties", "propertyNames", "contains"}

  /** Keywords holding a list of schemas. */
  const ListKeywords: set<string> := {"allOf", "anyOf", "oneOf"}

  /** Every Draft 7 keyword with a verdict of its own, but `$ref`. */
  predicate IsAsserting(key: string) {
    || IsPlain(key) || key in SchemaKeywords || key in ListKeywords
    || key in {"items", "additionalItems", "properties", "patternProperties", "dependencies"}
  }

  /** Keywords that 2020-12 reads and Draft 7 does not know. */
  const NewKeywords: set<string> :=
    WrittenKeywords + {"minContains", "maxContains", "unevaluatedItems", "unevaluatedProperties", "$dynamicRef"}

  predicate NoNewKeywords(fields: seq<Field>) {
    forall i :: 0 <= i < |fields| ==> fields[i].key !in NewKeywords
  }

  /** The whole document, or a definition at its root by name. */
  predicate KnownReference(r: string) {
    r == "#" || (OldPrefix <= r && '/' !in r[|OldPrefix|..])
  }

  /** A Draft 7 schema as the translation expects one; the last section shows what goes wrong otherwise. */
  ghost predicate Convertible(s: Json)
    decreases s, 2
  {
    s.Obj? ==> Walkable(s) && if IsReference(s) then ReferenceAlone(s) else PartsConvertible(s)
  }

  ghost predicate Walkable(s: Json) {
    Readable(s) && NoNewKeywords(s.fields)
  }

  /** The reference has a form the translation follows, and nothing asserting stands beside it. */
  ghost predicate ReferenceAlone(s: Json)
    requires s.Obj? && IsReference(s)
  {
    KnownReference(Get(s.fields, "$ref").value.s) && AssertsNothing(s)
  }

  ghost predicate AssertsNothing(s: Json)
    requires s.Obj?
  {
    forall key :: IsAsserting(key) ==> !Has(s.fields, key)
  }

  ghost predicate PartsConvertible(s: Json)
    requires s.Obj?
    decreases s, 1
  {
    PlainKept(s) && forall key :: PartConvertible(s, key)
  }

  /** What the walk expects under one keyword. */
  ghost predicate PartConvertible(s: Json, key: string)
    requires s.Obj?
    decreases s, 0
  {
    var part := Member(s, key);
    part.Some? ==>
      && (key in SchemaKeywords ==> Convertible(part.value))
      && (key in ListKeywords ==> AllConvertible(part.value))
      && (key == "items" ==> AllConvertible(part.value) && Convertible(part.value))
      && (key == "additionalItems" ==> !part.value.Null? && Convertible(part.value))
      && (key == "properties" || key == "patternProperties" ==> NamedConvertible(part.value))
      && (key == "dependencies" ==> DependenciesConvertible(part.value))
  }

  /** Values that are not schemas hold nothing the walk would take for a keyword. */
  ghost predicate PlainKept(s: Json)
    requires s.Obj?
  {
    forall key :: IsPlain(key) && Has(s.fields, key) ==>
                    WellFormed(Get(s.fields, key).value) && Untouched(Get(s.fields, key).value)
  }

  ghost predicate AllConvertible(v: Json)
    decreases v, 0
  {
    v.Arr? ==> forall i :: 0 <= i < |v.items| ==> Convertible(v.items[i])
  }

  /** Schemas by name, none named as a keyword the walk rewrites. */
  ghost predicate NamedConvertible(v: Json)
    decreases v, 1
  {
    v.Obj? ==> Distinct(v.fields) && NamesPlain(v.fields) && forall name :: NameConvertible(v, name)
  }

  ghost predicate NameConvertible(v: Json, name: string)
    requires v.Obj?
    decreases v, 0
  {
    var part := Member(v, name);
    part.Some? ==> Convertible(part.value)
  }

  /** The names of dependencies are not walked, so they may be anything. */
  ghost predicate DependenciesConvertible(v: Json)
    decreases v, 1
  {
    v.Obj? ==> Distinct(v.fields) && forall name :: DependencyConvertible(v, name)
  }

  ghost predicate DependencyConvertible(v: Json, name: string)
    requires v.Obj?
    decreases v, 0
  {
    var d := Member(v, name);
    d.Some? ==> if d.value.Arr? then WellFormed(d.value) && Untouched(d.value) else Convertible(d.value)
  }

  lemma TupleParts(s: Json, i: nat)
    requires s.Obj? && PartsConvertible(s) && Has(s.fields, "items") && Member(s, "items").value.Arr?
    ensures i < |Member(s, "items").value.items| ==> Convertible(Member(s, "items").value.items[i])
    ensures Has(s.fields, "additionalItems") ==>
              !Member(s, "additionalItems").value.Null? && Convertible(Member(s, "additionalItems").value)
  {
    assert PartConvertible(s, "items") && PartConvertible(s, "additionalItems");
    assert AllConvertible(Member(s, "items").value);
  }

  lemma PropertiesPart(s: Json, key: string)
    requires s.Obj? && PartsConvertible(s) && Has(s.fields, key) && (key == "properties" || key == "patternProperties")
    ensures NamedConvertible(Member(s, key).value)
  {
    assert PartConvertible(s, key);
  }

  lemma DependencyPart(s: Json, name: string)
    requires s.Obj? && PartsConvertible(s) && Has(s.fields, "dependencies") && Member(s, "dependencies").value.Obj?
    ensures var deps := Member(s, "dependencies").value;
            && Distinct(deps.fields)
            && (Has(deps.fields, name) ==>
                  var d := Member(deps, name).value;
                  if d.Arr? then WellFormed(d) && Untouched(d) else Convertible(d))
  {
    assert PartConvertible(s, "dependencies");
    assert DependenciesConvertible(Member(s, "dependencies").value);
    assert DependencyConvertible(Member(s, "dependencies").value, name);
  }

  /** A whole document: its root, and the definitions references reach. */
  ghost predicate ConvertibleDocument(root: Json) {
    && Convertible(root)
    && (root.Obj? && Has(root.fields, "definitions") ==>
          Member(root, "definitions").value.Obj? && NamedConvertible(Member(root, "definitions").value))
  }

  /** The two readings of one document. */
  ghost predicate Readings(c7: Context, c20: Context) {
    && c7.dialect.Draft7? && c20.dialect.Draft2020?
    && c7.rules == c20.rules
    && ConvertibleDocument(c7.root)
    && c20.root == Translate(c7.root)
  }

  /** The keywords of a translated schema. */
  lemma TranslatedMember(s: Json, key: string)
    requires Walkable(s)
    ensures Translate(s).Obj?
    ensures Member(Translate(s), key) == Expected(s, |s.fields|, key)
  {
    TranslateFieldsGet(s, |s.fields|, key);
  }

  lemma TranslatedNamed(v: Json, name: string)
    requires v.Obj? && NamedConvertible(v)
    ensures Translate(v).Obj?
    ensures Member(Translate(v), name) == MapTranslate(Member(v, name))
  {
    NamesPlainGet(v, |v.fields|, name);
  }

  /** Keywords both dialects give the same meaning. */
  predicate Shared(key: string) {
    key !in NewKeywords + {"$schema", "$ref", "definitions", "items", "additionalItems", "dependencies"}
  }

  lemma SharedMember(s: Json, key: string)
    requires Walkable(s) && Shared(key)
    ensures Translate(s).Obj?
    ensures Member(Translate(s), key) == MapTranslate(Member(s, key))
  {
    TranslatedMember(s, key);
  }

  lemma KeywordsShared(key: string)
    requires || IsPlain(key) || key in SchemaKeywords || key in ListKeywords
             || key == "properties" || key == "patternProperties"
    ensures Shared(key)
  {
  }

  lemma PlainMemberKept(s: Json, key: string)
    requires Walkable(s) && PlainKept(s) && IsPlain(key)
    ensures Translate(s).Obj?
    ensures Get(Translate(s).fields, key) == Get(s.fields, key)
  {
    KeywordsShared(key);
    SharedMember(s, key);
    if Has(s.fields, key) {
      UntouchedKept(Get(s.fields, key).value);
    }
  }

  lemma PreservePlain(c7: Context, c20: Context, s: Json, v: Json)
    requires Readings(c7, c20) && Walkable(s) && PartsConvertible(s)
    ensures Translate(s).Obj?
    ensures PlainKeywordsOk(c7, s, v) == PlainKeywordsOk(c20, Translate(s), v)
  {
    forall key | IsPlain(key)
      ensures Get(Translate(s).fields, key) == Get(s.fields, key)
    {
      PlainMemberKept(s, key);
    }
  }

  lemma RootResolves(c: Context)
    ensures Resolve(c, "#") == Some(c.root)
  {
    assert "#"[1..] == "";
  }

  lemma DefinitionPath(r: string) returns (token: string)
    requires KnownReference(r) && r != "#"
    ensures '/' !in token && r == "#/" + "definitions" + "/" + token && RewriteRef(r) == "#/" + "$defs" + "/" + token
  {
    PrefixParts();
    token := r[|OldPrefix|..];
    assert r == OldPrefix + token;
  }

  lemma PrefixParts()
    ensures OldPrefix == "#/" + "definitions" + "/" && NewPrefix == "#/" + "$defs" + "/"
  {
  }

  lemma PreserveResolve(c7: Context, c20: Context, r: string)
    requires Readings(c7, c20) && KnownReference(r)
    ensures Resolve(c20, RewriteRef(r)) == MapTranslate(Resolve(c7, r))
    ensures Resolve(c7, r).Some? ==> Convertible(Resolve(c7, r).value)
  {
    hide Resolve, Definition, Convertible;
    if r == "#" {
      RootResolves(c7);
      RootResolves(c20);
    } else {
      hide Readings, KnownReference, RewriteRef;
      var token := DefinitionPath(r);
      ResolveDefinition(c7, "definitions", token);
      ResolveDefinition(c20, "$defs", token);
      PreserveDefinition(c7, c20, Unescape(token));
    }
  }

  lemma PreserveDefinition(c7: Context, c20: Context, name: string)
    requires Readings(c7, c20)
    ensures Definition(c20.root, "$defs", name) == MapTranslate(Definition(c7.root, "definitions", name))
    ensures var d := Definition(c7.root, "definitions", name); d.Some? ==> Convertible(d.value)
  {
    if c7.root.Obj? {
      TranslatedMember(c7.root, "$defs");
      var definitions := Member(c7.root, "definitions");
      if definitions.Some? && definitions.value.Obj? {
        assert NameConvertible(definitions.value, name);
        TranslatedNamed(definitions.value, name);
      }
    }
  }

  lemma PreserveVerdicts(c7: Context, c20: Context, parts: Json, v: Json, fuel: nat)
    requires Readings(c7, c20) && parts.Arr? && AllConvertible(parts)
    ensures Translate(parts).Arr?
    ensures Verdicts(c7, parts, v, fuel) == Verdicts(c20, Translate(parts), v, fuel)
    decreases fuel, parts, 8
  {
    forall i | 0 <= i < |parts.items|
      ensures Valid(c7, parts.items[i], v, fuel) == Valid(c20, Translate(parts.items[i]), v, fuel)
    {
      Preserve(c7, c20, parts.items[i], v, fuel);
    }
  }

  lemma PreserveHolds(c7: Context, c20: Context, s: Json, key: string, v: Json, fuel: nat)
    requires Readings(c7, c20) && Walkable(s) && PartsConvertible(s) && key in SchemaKeywords
    ensures Translate(s).Obj?
    ensures Has(Translate(s).fields, key) == Has(s.fields, key)
    ensures Holds(c7, s, key, v, fuel) == Holds(c20, Translate(s), key, v, fuel)
    decreases fuel, s, 0
  {
    KeywordsShared(key);
    SharedMember(s, key);
    assert PartConvertible(s, key);
    if Has(s.fields, key) {
      Preserve(c7, c20, Member(s, key).value, v, fuel);
    }
  }

  lemma PreserveListKeyword(c7: Context, c20: Context, s: Json, key: string, v: Json, fuel: nat)
    requires Readings(c7, c20) && Walkable(s) && PartsConvertible(s) && key in ListKeywords
    ensures Translate(s).Obj? && Member(Translate(s), key) == MapTranslate(Member(s, key))
    ensures Member(s, key).Some? && Member(s, key).value.Arr? ==>
              && Translate(Member(s, key).value).Arr?
              && Verdicts(c7, Member(s, key).value, v, fuel) == Verdicts(c20, Translate(Member(s, key).value), v, fuel)
    decreases fuel, s, 0
  {
    KeywordsShared(key);
    SharedMember(s, key);
    assert PartConvertible(s, key);
    if Member(s, key).Some? && Member(s, key).value.Arr? {
      PreserveVerdicts(c7, c20, Member(s, key).value, v, fuel);
    }
  }

  lemma PreserveLists(c7: Context, c20: Context, s: Json, v: Json, fuel: nat)
    requires Readings(c7, c20) && Walkable(s) && PartsConvertible(s)
    ensures Translate(s).Obj?
    ensures AllOf(c7, s, v, fuel) == AllOf(c20, Translate(s), v, fuel)
    ensures AnyOf(c7, s, v, fuel) == AnyOf(c20, Translate(s), v, fuel)
    ensures OneOf(c7, s, v, fuel) == OneOf(c20, Translate(s), v, fuel)
    decreases fuel, s, 1
  {
    PreserveListKeyword(c7, c20, s, "allOf", v, fuel);
    PreserveListKeyword(c7, c20, s, "anyOf", v, fuel);
    PreserveListKeyword(c7, c20, s, "oneOf", v, fuel);
  }

  lemma PreserveCombines(c7: Context, c20: Context, s: Json, v: Json, fuel: nat)
    requires Readings(c7, c20) && Walkable(s) && PartsConvertible(s)
    ensures Translate(s).Obj?
    ensures Combines(c7, s, v, fuel) == Combines(c20, Translate(s), v, fuel)
    decreases fuel, s, 2
  {
    PreserveLists(c7, c20, s, v, fuel);
    PreserveHolds(c7, c20, s, "not", v, fuel);
    PreserveHolds(c7, c20, s, "if", v, fuel);
    PreserveHolds(c7, c20, s, "then", v, fuel);
    PreserveHolds(c7, c20, s, "else", v, fuel);
  }

  lemma PreserveTuple(c7: Context, c20: Context, s: Json, i: nat, item: Json, fuel: nat)
    requires Readings(c7, c20) && Walkable(s) && PartsConvertible(s)
    requires Has(s.fields, "items") && Member(s, "items").value.Arr?
    ensures Translate(s).Obj?
    ensures ElementOk(c7, s, i, item, fuel) == ElementOk(c20, Translate(s), i, item, fuel)
    decreases fuel, s, 1
  {
    TranslatedMember(s, "prefixItems");
    TranslatedMember(s, "items");
    var tuple, rest := Member(s, "items").value, Member(s, "additionalItems");
    assert Member(Translate(s), "prefixItems") == Some(Translate(tuple));
    assert Member(Translate(s), "items") == Some(TranslatedRest(s));
    TupleParts(s, i);
    if i < |tuple.items| {
      Preserve(c7, c20, tuple.items[i], item, fuel);
    } else if rest.Some? {
      Preserve(c7, c20, rest.value, item, fuel);
      assert TranslatedRest(s) == Translate(rest.value);
    } else {
      assert TranslatedRest(s) == Bool(true);
      assert Valid(c20, Bool(true), item, fuel);
    }
  }

  /** Tuples: `items` becomes `prefixItems`, and `additionalItems` takes its place. */
  lemma PreserveElement(c7: Context, c20: Context, s: Json, i: nat, item: Json, fuel: nat)
    requires Readings(c7, c20) && Walkable(s) && PartsConvertible(s)
    ensures Translate(s).Obj?
    ensures ElementOk(c7, s, i, item, fuel) == ElementOk(c20, Translate(s), i, item, fuel)
    decreases fuel, s, 2
  {
    var tuple := Member(s, "items");
    if tuple.Some? && tuple.value.Arr? {
      PreserveTuple(c7, c20, s, i, item, fuel);
    } else {
      TranslatedMember(s, "prefixItems");
      TranslatedMember(s, "items");
      assert PartConvertible(s, "items");
      if tuple.Some? {
        Preserve(c7, c20, tuple.value, item, fuel);
      }
    }
  }

  lemma PreserveContained(c7: Context, c20: Context, s: Json, items: seq<Json>, n: nat, fuel: nat)
    requires Readings(c7, c20) && Walkable(s) && PartsConvertible(s) && n <= |items|
    ensures Translate(s).Obj?
    ensures Contained(c7, s, items, n, fuel) == Contained(c20, Translate(s), items, n, fuel)
    decreases fuel, s, 1, n
  {
    if n > 0 {
      PreserveContained(c7, c20, s, items, n - 1, fuel);
      PreserveHolds(c7, c20, s, "contains", items[n - 1], fuel);
    } else {
      TranslatedMember(s, "contains");
    }
  }

  /** A Draft 7 document has no bounds for `contains`, so one match is enough in both dialects. */
  lemma PreserveContains(c7: Context, c20: Context, s: Json, n: nat)
    requires Readings(c7, c20) && Walkable(s)
    ensures Translate(s).Obj?
    ensures ContainsOk(c7, s, n) == ContainsOk(c20, Translate(s), n)
  {
    AbsentKeyword(s, "minContains");
    AbsentKeyword(s, "maxContains");
  }

  lemma AbsentKeyword(s: Json, key: string)
    requires Walkable(s) && key in {"minContains", "maxContains", "unevaluatedItems", "unevaluatedProperties", "$dynamicRef"}
    ensures Translate(s).Obj? && Member(Translate(s), key).None?
  {
    TranslatedMember(s, key);
    Finds(s.fields, |s.fields|, key);
  }

  lemma PreserveElements(c7: Context, c20: Context, s: Json, items: seq<Json>, fuel: nat)
    requires Readings(c7, c20) && Walkable(s) && PartsConvertible(s)
    ensures Translate(s).Obj?
    ensures Elements(c7, s, items, fuel) == Elements(c20, Translate(s), items, fuel)
    decreases fuel, s, 3
  {
    forall i | 0 <= i < |items|
      ensures ElementOk(c7, s, i, items[i], fuel) == ElementOk(c20, Translate(s), i, items[i], fuel)
    {
      PreserveElement(c7, c20, s, i, items[i], fuel);
    }
    PreserveContained(c7, c20, s, items, |items|, fuel);
    PreserveContains(c7, c20, s, Contained(c7, s, items, |items|, fuel));
    PreserveHolds(c7, c20, s, "contains", Null, fuel);
  }

  lemma PreserveProperty(c7: Context, c20: Context, properties: Json, m: Field, fuel: nat)
    requires Readings(c7, c20) && properties.Obj? && NamedConvertible(properties)
    ensures Translate(properties).Obj?
    ensures Has(Translate(properties).fields, m.key) == Has(properties.fields, m.key)
    ensures Holds(c7, properties, m.key, m.value, fuel) == Holds(c20, Translate(properties), m.key, m.value, fuel)
    decreases fuel, properties, 1
  {
    TranslatedNamed(properties, m.key);
    assert NameConvertible(properties, m.key);
    if Has(properties.fields, m.key) {
      Preserve(c7, c20, Member(properties, m.key).value, m.value, fuel);
    }
  }

  lemma PreservePatterns(c7: Context, c20: Context, s: Json, m: Field, fuel: nat)
    requires Readings(c7, c20) && Walkable(s) && PartsConvertible(s)
    ensures Translate(s).Obj?
    ensures PatternHit(c7, s, m.key) == PatternHit(c20, Translate(s), m.key)
    ensures PatternsOk(c7, s, m, fuel) == PatternsOk(c20, Translate(s), m, fuel)
    decreases fuel, s, 0
  {
    SharedMember(s, "patternProperties");
    var patterns := Member(s, "patternProperties");
    if patterns.Some? && patterns.value.Obj? {
      PropertiesPart(s, "patternProperties");
      forall p
        ensures Has(Translate(patterns.value).fields, p) == Has(patterns.value.fields, p)
        ensures Holds(c7, patterns.value, p, m.value, fuel) == Holds(c20, Translate(patterns.value), p, m.value, fuel)
      {
        PreserveProperty(c7, c20, patterns.value, Field(p, m.value), fuel);
      }
    }
  }

  lemma PreserveMember(c7: Context, c20: Context, s: Json, m: Field, fuel: nat)
    requires Readings(c7, c20) && Walkable(s) && PartsConvertible(s)
    ensures Translate(s).Obj?
    ensures MemberOk(c7, s, m, fuel) == MemberOk(c20, Translate(s), m, fuel)
    decreases fuel, s, 1
  {
    hide PatternsOk, PatternHit, Readings, Walkable, PartsConvertible;
    SharedMember(s, "properties");
    PreserveHolds(c7, c20, s, "additionalProperties", m.value, fuel);
    PreservePatterns(c7, c20, s, m, fuel);
    var properties := Member(s, "properties");
    if properties.Some? && properties.value.Obj? {
      PropertiesPart(s, "properties");
      PreserveProperty(c7, c20, properties.value, m, fuel);
    }
  }

  lemma PreserveMembers(c7: Context, c20: Context, s: Json, members: seq<Field>, fuel: nat)
    requires Readings(c7, c20) && Walkable(s) && PartsConvertible(s)
    ensures Translate(s).Obj?
    ensures Members(c7, s, members, fuel) == Members(c20, Translate(s), members, fuel)
    decreases fuel, s, 2
  {
    forall i | 0 <= i < |members|
      ensures MemberOk(c7, s, members[i], fuel) == MemberOk(c20, Translate(s), members[i], fuel)
      ensures Holds(c7, s, "propertyNames", Str(members[i].key), fuel)
           == Holds(c20, Translate(s), "propertyNames", Str(members[i].key), fuel)
    {
      PreserveMember(c7, c20, s, members[i], fuel);
      PreserveHolds(c7, c20, s, "propertyNames", Str(members[i].key), fuel);
    }
  }

  /** Where one dependency goes: to the keyword of its kind, under its own name. */
  lemma TranslatedDependency(s: Json, name: string, target: string)
    requires Walkable(s) && PartsConvertible(s) && (target == "dependentRequired" || target == "dependentSchemas")
    ensures Translate(s).Obj?
    ensures var deps, entries := Member(s, "dependencies"), Member(Translate(s), target);
            var d := if deps.Some? && deps.value.Obj? then Member(deps.value, name) else None;
            if d.Some? && DependencyTarget(d.value) == target
            then entries.Some? && entries.value.Obj? && Member(entries.value, name) == Some(Translate(d.value))
            else entries.Some? && entries.value.Obj? ==> Member(entries.value, name).None?
  {
    TranslatedMember(s, target);
    var deps := Member(s, "dependencies");
    if deps.Some? && deps.value.Obj? {
      DependencyPart(s, name);
      CollectedGet(deps.value, target, |deps.value.fields|, name);
    }
  }

  /** A dependency list and a dependency schema keep their meaning apart. */
  lemma PreserveDependency(c7: Context, c20: Context, s: Json, name: string, v: Json, fuel: nat)
    requires Readings(c7, c20) && Walkable(s) && PartsConvertible(s) && v.Obj?
    ensures Translate(s).Obj?
    ensures DependencyOk(c7, s, name, v, fuel) == DependencyOk(c20, Translate(s), name, v, fuel)
    decreases fuel, s, 1
  {
    TranslatedDependency(s, name, "dependentRequired");
    TranslatedDependency(s, name, "dependentSchemas");
    var deps := Member(s, "dependencies");
    if deps.Some? && deps.value.Obj? && Has(deps.value.fields, name) {
      DependencyPart(s, name);
      var d := Member(deps.value, name).value;
      if d.Arr? {
        UntouchedKept(d);
      } else {
        Preserve(c7, c20, d, v, fuel);
      }
    }
  }

  lemma PreserveAsserts(c7: Context, c20: Context, s: Json, v: Json, fuel: nat)
    requires Readings(c7, c20) && Walkable(s) && PartsConvertible(s)
    ensures Translate(s).Obj?
    ensures Asserts(c7, s, v, fuel) == Asserts(c20, Translate(s), v, fuel)
    decreases fuel, s, 4
  {
    PreservePlain(c7, c20, s, v);
    PreserveCombines(c7, c20, s, v, fuel);
    if v.Arr? {
      PreserveElements(c7, c20, s, v.items, fuel);
    }
    if v.Obj? {
      PreserveMembers(c7, c20, s, v.fields, fuel);
      forall i | 0 <= i < |v.fields|
        ensures DependencyOk(c7, s, v.fields[i].key, v, fuel) == DependencyOk(c20, Translate(s), v.fields[i].key, v, fuel)
      {
        PreserveDependency(c7, c20, s, v.fields[i].key, v, fuel);
      }
    }
  }

  /** A schema with no asserting keyword admits everything, in either dialect. */
  lemma NothingAsserted(c: Context, s: Json, v: Json, fuel: nat)
    requires s.Obj? && AssertsNothing(s) && forall key :: key in NewKeywords - {"$defs"} ==> !Has(s.fields, key)
    ensures Asserts(c, s, v, fuel)
  {
    PartsAsserting();
    hide IsPlain, IsAsserting, Combines, Elements, Members, Depends, Get;
    assert forall key :: IsPlain(key) ==> IsAsserting(key) by {
      PlainAsserting();
    }
    assert PlainKeywordsOk(c, s, v);
    SimpleCombines(c, s, v, fuel);
    if v.Arr? {
      NoElementsConstrained(c, s, v.items, fuel);
    }
    if v.Obj? {
      NoMembersConstrained(c, s, v.fields, fuel);
      NothingDepends(c, s, v, fuel);
    }
  }

  lemma PlainAsserting()
    ensures forall key :: IsPlain(key) ==> IsAsserting(key)
  {
  }

  lemma PartsAsserting()
    ensures IsAsserting("allOf") && IsAsserting("anyOf") && IsAsserting("oneOf") && IsAsserting("not") && IsAsserting("if")
    ensures IsAsserting("items") && IsAsserting("contains") && IsAsserting("dependencies")
    ensures IsAsserting("properties") && IsAsserting("patternProperties") && IsAsserting("additionalProperties")
    ensures IsAsserting("propertyNames")
  {
  }

  lemma TranslatedAbsent(s: Json, key: string)
    requires Walkable(s) && AssertsNothing(s) && (IsAsserting(key) || key in NewKeywords - {"$defs"})
    ensures Translate(s).Obj? && !Has(Translate(s).fields, key)
  {
    if || IsPlain(key) || key in SchemaKeywords || key in ListKeywords
       || key == "properties" || key == "patternProperties"
    {
      assert IsAsserting(key);
      KeywordsShared(key);
      SharedMember(s, key);
    } else if key in {"items", "additionalItems", "dependencies", "prefixItems", "dependentRequired", "dependentSchemas"} {
      TranslatedTupleAbsent(s, key);
    } else {
      AbsentKeyword(s, key);
    }
  }

  lemma TranslatedTupleAbsent(s: Json, key: string)
    requires Walkable(s) && AssertsNothing(s)
    requires key in {"items", "additionalItems", "dependencies", "prefixItems", "dependentRequired", "dependentSchemas"}
    ensures Translate(s).Obj? && !Has(Translate(s).fields, key)
  {
    assert IsAsserting("items") && IsAsserting("dependencies");
    TranslatedMember(s, key);
  }

  lemma TranslatedAssertsNothing(s: Json)
    requires Walkable(s) && AssertsNothing(s)
    ensures Translate(s).Obj? && AssertsNothing(Translate(s))
    ensures forall key :: key in NewKeywords - {"$defs"} ==> !Has(Translate(s).fields, key)
  {
    forall key | IsAsserting(key) || key in NewKeywords - {"$defs"}
      ensures !Has(Translate(s).fields, key)
    {
      TranslatedAbsent(s, key);
    }
  }

  lemma TranslatedReference(c7: Context, c20: Context, s: Json, r: string, v: Json, fuel: nat)
    requires Readings(c7, c20) && Walkable(s) && AssertsNothing(s)
    requires Get(s.fields, "$ref") == Some(Str(r)) && KnownReference(r)
    ensures var target := Resolve(c7, r);
            && (target.Some? ==> Convertible(target.value))
            && Valid(c7, s, v, fuel) == (fuel > 0 && target.Some? && Valid(c7, target.value, v, fuel - 1))
            && Valid(c20, Translate(s), v, fuel)
               == (fuel > 0 && target.Some? && Valid(c20, Translate(target.value), v, fuel - 1))
  {
    ValidReference(c7, s, r, Resolve(c7, r), v, fuel);
    PreserveResolve(c7, c20, r);
    assert Get(Translate(s).fields, "$ref") == Some(Str(RewriteRef(r))) by {
      TranslatedMember(s, "$ref");
    }
    ValidReference(c20, Translate(s), RewriteRef(r), MapTranslate(Resolve(c7, r)), v, fuel);
    TranslatedAssertsNothing(s);
    NothingAsserted(c20, Translate(s), v, fuel);
  }

  lemma Preserve(c7: Context, c20: Context, s: Json, v: Json, fuel: nat)
    requires Readings(c7, c20) && Convertible(s)
    ensures Valid(c7, s, v, fuel) == Valid(c20, Translate(s), v, fuel)
    decreases fuel, s, 7
  {
    if s.Obj? {
      if IsReference(s) {
        var r := Get(s.fields, "$ref").value.s;
        TranslatedReference(c7, c20, s, r, v, fuel);
        var target := Resolve(c7, r);
        if fuel > 0 && target.Some? {
          Preserve(c7, c20, target.value, v, fuel - 1);
        }
      } else {
        assert !IsReference(Translate(s)) by {
          TranslatedMember(s, "$ref");
        }
        PreserveAsserts(c7, c20, s, v, fuel);
        ValidWithoutReference(c7, s, v, fuel);
        ValidWithoutReference(c20, Translate(s), v, fuel);
      }
    }
  }

  /** A document and its translation admit the same instances. */
  lemma TranslationPreservesValidity(root: Json, v: Json, fuel: nat, rules: Rules)
    requires ConvertibleDocument(root)
    ensures Valid(Context(Draft7, root, rules), root, v, fuel)
        <==> Valid(Context(Draft2020, Translate(root), rules), Translate(root), v, fuel)
  {
    Preserve(Context(Draft7, root, rules), Context(Draft2020, Translate(root), rules), root, v, fuel);
  }

  // ---- Each precondition is needed ----------------------------------------------------------

  /** The examples ask nothing of these. */
  const LAX := Rules((f: string, s: string) => true, (p: string, s: string) => false, (k: string, a: Json, v: Json) => true)

  /** Draft 7 ignores what stands beside a reference; 2020-12 applies it. */
  lemma SiblingCounterexample()
    ensures var root := Obj([Field("$ref", Str("#/definitions/a")), Field("not", Bool(true)),
                             Field("definitions", Obj([Field("a", Bool(true))]))]);
            && Valid(Context(Draft7, root, LAX), root, Null, 1)
            && !Valid(Context(Draft2020, Translate(root), LAX), Translate(root), Null, 1)
  {
    var r := "#/definitions/a";
    var root := Obj([Field("$ref", Str(r)), Field("not", Bool(true)), Field("definitions", Obj([Field("a", Bool(true))]))]);
    assert Distinct(root.fields);
    GetAt(root.fields, 0);
    GetAt(root.fields, 1);
    GetAt(root.fields, 2);
    SiblingTranslated(root, r);
    hide Valid, Get, Translate;
    SiblingBefore(Context(Draft7, root, LAX), r);
    SiblingAfter(Context(Draft2020, Translate(root), LAX), r);
  }

  lemma SiblingTranslated(root: Json, r: string)
    requires Readable(root) && Get(root.fields, "$ref") == Some(Str(r)) && Get(root.fields, "not") == Some(Bool(true))
    ensures Translate(root).Obj?
    ensures Get(Translate(root).fields, "$ref") == Some(Str(RewriteRef(r)))
    ensures Get(Translate(root).fields, "not") == Some(Bool(true))
  {
    TranslateFieldsGet(root, |root.fields|, "$ref");
    TranslateFieldsGet(root, |root.fields|, "not");
    hide TranslateFields, RewriteRef;
  }

  lemma SiblingBefore(c: Context, r: string)
    requires c.dialect.Draft7? && c.root.Obj? && r == "#/definitions/a" && Get(c.root.fields, "$ref") == Some(Str(r))
    requires Get(c.root.fields, "definitions") == Some(Obj([Field("a", Bool(true))]))
    ensures Valid(c, c.root, Null, 1)
  {
    assert Valid(c, Bool(true), Null, 0);
    hide Valid, Resolve;
    GetAt([Field("a", Bool(true))], 0);
    UnescapePlain("a");
    assert r == "#/" + "definitions" + "/" + "a";
    ResolveDefinition(c, "definitions", "a");
    ValidReference(c, c.root, r, Some(Bool(true)), Null, 1);
  }

  lemma SiblingAfter(c: Context, r: string)
    requires c.dialect.Draft2020? && c.root.Obj?
    requires Get(c.root.fields, "$ref") == Some(Str(RewriteRef(r))) && Get(c.root.fields, "not") == Some(Bool(true))
    ensures !Valid(c, c.root, Null, 1)
  {
    assert Holds(c, c.root, "not", Null, 1);
    ValidReference(c, c.root, RewriteRef(r), Resolve(c, RewriteRef(r)), Null, 1);
  }

  /** A reference two definitions deep. */
  lemma NestedIn(c: Context, key: string, within: string, a: string, b: string, inner: Json)
    requires '/' !in key && '~' !in key && '/' !in within && '~' !in within
    requires '/' !in a && '~' !in a && '/' !in b && '~' !in b
    requires c.root.Obj? && Get(c.root.fields, key) == Some(Obj([Field(a, inner)])) && inner.Obj?
    ensures Resolve(c, "#/" + key + "/" + a + ("/" + within + "/" + b)) == Definition(inner, within, b)
  {
    hide Pointer, Unescape, Definition, Get;
    var rest := "/" + within + "/" + b;
    ResolveFrom(c, key, a, rest);
    UnescapePlain(a);
    UnescapePlain(b);
    GetAt([Field(a, inner)], 0);
    ResolveDefinition(Context(c.dialect, inner, c.rules), within, b);
    assert ("#/" + within + "/" + b)[1..] == rest;
  }

  /** A reference into nested definitions: each of them is renamed, and only the first name in the reference. */
  lemma NestedReferenceCounterexample()
    ensures var inner := Obj([Field("definitions", Obj([Field("b", Bool(true))]))]);
            var root := Obj([Field("$ref", Str("#/definitions/a/definitions/b")),
                             Field("definitions", Obj([Field("a", inner)]))]);
            && Valid(Context(Draft7, root, LAX), root, Null, 1)
            && !Valid(Context(Draft2020, Translate(root), LAX), Translate(root), Null, 1)
  {
    var leaf := Obj([Field("b", Bool(true))]);
    var inner := Obj([Field("definitions", leaf)]);
    var r := "#/definitions/a/definitions/b";
    var root := Obj([Field("$ref", Str(r)), Field("definitions", Obj([Field("a", inner)]))]);
    NestedTranslated(root, inner, Obj([Field("a", inner)]), leaf);
    assert Distinct(root.fields);
    GetAt(root.fields, 0);
    GetAt(root.fields, 1);
    NestedBefore(Context(Draft7, root, LAX), r, inner, leaf);
    NestedAfter(Context(Draft2020, Translate(root), LAX), r, leaf);
  }

  lemma NestedPath(r: string)
    requires r == "#/definitions/a/definitions/b"
    ensures r == "#/" + "definitions" + "/" + "a" + ("/" + "definitions" + "/" + "b")
    ensures RewriteRef(r) == "#/" + "$defs" + "/" + "a" + ("/" + "definitions" + "/" + "b")
  {
    PrefixParts();
    var tail := "a" + ("/" + "definitions" + "/" + "b");
    assert tail == "a/definitions/b";
    assert r == OldPrefix + tail && r[|OldPrefix|..] == tail;
    Regroup(OldPrefix, "a", "/" + "definitions" + "/" + "b");
    Regroup(NewPrefix, "a", "/" + "definitions" + "/" + "b");
  }

  lemma Regroup(a: string, b: string, c: string)
    ensures a + (b + c) == a + b + c
  {
  }

  lemma NestedBefore(c: Context, r: string, inner: Json, leaf: Json)
    requires leaf == Obj([Field("b", Bool(true))]) && inner == Obj([Field("definitions", leaf)])
    requires c.root.Obj? && Get(c.root.fields, "$ref") == Some(Str(r))
    requires Get(c.root.fields, "definitions") == Some(Obj([Field("a", inner)]))
    requires c.dialect.Draft7? && r == "#/definitions/a/definitions/b"
    ensures Valid(c, c.root, Null, 1)
  {
    assert Valid(c, Bool(true), Null, 0);
    NestedPath(r);
    GetAt(inner.fields, 0);
    GetAt(leaf.fields, 0);
    assert Definition(inner, "definitions", "b") == Some(Bool(true));
    hide Valid, Resolve, Definition, Get;
    NestedIn(c, "definitions", "definitions", "a", "b", inner);
    ValidReference(c, c.root, r, Some(Bool(true)), Null, 1);
  }

  lemma NestedAfter(c: Context, r: string, leaf: Json)
    requires r == "#/definitions/a/definitions/b" && c.root.Obj?
    requires Get(c.root.fields, "$ref") == Some(Str(RewriteRef(r)))
    requires Get(c.root.fields, "$defs") == Some(Obj([Field("a", Obj([Field("$defs", leaf)]))]))
    ensures !Valid(c, c.root, Null, 1)
  {
    var moved := Obj([Field("$defs", leaf)]);
    NestedPath(r);
    Finds(moved.fields, 1, "definitions");
    assert Definition(moved, "definitions", "b") == None;
    hide Valid, Resolve, Definition, Get, RewriteRef;
    NestedIn(c, "$defs", "definitions", "a", "b", moved);
    ValidReference(c, c.root, RewriteRef(r), None, Null, 1);
  }

  lemma NestedTranslated(root: Json, inner: Json, outer: Json, leaf: Json)
    requires leaf == Obj([Field("b", Bool(true))]) && inner == Obj([Field("definitions", leaf)])
    requires outer == Obj([Field("a", inner)])
    requires root == Obj([Field("$ref", Str("#/definitions/a/definitions/b")), Field("definitions", outer)])
    ensures Translate(root).Obj?
    ensures Get(Translate(root).fields, "$ref") == Some(Str(RewriteRef("#/definitions/a/definitions/b")))
    ensures Get(Translate(root).fields, "$defs") == Some(Obj([Field("a", Obj([Field("$defs", leaf)]))]))
  {
    NestedParts(inner, outer, leaf);
    assert Distinct(root.fields);
    GetAt(root.fields, 0);
    GetAt(root.fields, 1);
    hide RewriteRef, TranslateFields;
    TranslateFieldsGet(root, 2, "$ref");
    TranslateFieldsGet(root, 2, "$defs");
  }

  lemma NestedParts(inner: Json, outer: Json, leaf: Json)
    requires leaf == Obj([Field("b", Bool(true))]) && inner == Obj([Field("definitions", leaf)])
    requires outer == Obj([Field("a", inner)])
    ensures Translate(outer) == Obj([Field("a", Obj([Field("$defs", leaf)]))])
  {
    assert TranslateFields(leaf, 1) == [Field("b", Bool(true))];
    assert TranslateFields(inner, 1) == [Field("$defs", leaf)];
    assert TranslateFields(outer, 1) == [Field("a", Obj([Field("$defs", leaf)]))];
  }

  /** A schema with one keyword that neither combines schemas nor states a dependency. */
  lemma SingleKeyword(c: Context, key: string, value: Json, v: Json)
    requires key in {"const", "properties", "prefixItems"}
    ensures var s := Obj([Field(key, value)]);
            Valid(c, s, v, 0) == (
              && PlainKeywordsOk(c, s, v)
              && (v.Arr? ==> Elements(c, s, v.items, 0))
              && (v.Obj? ==> Members(c, s, v.fields, 0)))
  {
    var s := Obj([Field(key, value)]);
    forall other | other != key ensures Get(s.fields, other).None? {
      Finds(s.fields, 1, other);
    }
    ValidWithoutReference(c, s, v, 0);
    hide PlainKeywordsOk, Combines, Elements, Members, Depends, Get;
    SimpleCombines(c, s, v, 0);
    if v.Obj? {
      NothingDepends(c, s, v, 0);
    }
  }

  /** A property named as a keyword of the walk loses its schema. */
  lemma PropertyNameCounterexample()
    ensures var root := Obj([Field("properties", Obj([Field("additionalItems", Bool(false))]))]);
            var v := Obj([Field("additionalItems", Null)]);
            && !Valid(Context(Draft7, root, LAX), root, v, 0)
            && Valid(Context(Draft2020, Translate(root), LAX), Translate(root), v, 0)
  {
    var properties := Obj([Field("additionalItems", Bool(false))]);
    var root := Obj([Field("properties", properties)]);
    var v := Obj([Field("additionalItems", Null)]);
    var c7, c20 := Context(Draft7, root, LAX), Context(Draft2020, Translate(root), LAX);
    GetAt(root.fields, 0);
    GetAt(properties.fields, 0);
    assert !MemberOk(c7, root, v.fields[0], 0);
    SingleKeyword(c7, "properties", properties, v);
    assert TranslateFields(properties, 1) == [];
    assert TranslateFields(root, 1) == [Field("properties", Obj([]))];
    hide Valid, MemberOk;
    NoPropertiesIn(c20, v);
  }

  lemma NoPropertiesIn(c: Context, v: Json)
    requires v == Obj([Field("additionalItems", Null)])
    ensures Valid(c, Obj([Field("properties", Obj([]))]), v, 0)
  {
    SingleKeyword(c, "properties", Obj([]), v);
    var s := Obj([Field("properties", Obj([]))]);
    PartsAreNotPlain();
    hide IsPlain, Valid;
    GetAt(s.fields, 0);
    forall key | key != "properties" ensures !Has(s.fields, key) {
      Finds(s.fields, 1, key);
    }
    assert MemberOk(c, s, v.fields[0], 0) && Holds(c, s, "propertyNames", Str("additionalItems"), 0);
  }

  /** A constant is walked as if it were a schema. */
  lemma ConstantCounterexample()
    ensures var root := Obj([Field("const", Obj([Field("$schema", Null)]))]);
            && !Valid(Context(Draft7, root, LAX), root, Obj([]), 0)
            && Valid(Context(Draft2020, Translate(root), LAX), Translate(root), Obj([]), 0)
  {
    var constant := Obj([Field("$schema", Null)]);
    var root := Obj([Field("const", constant)]);
    var c7, c20 := Context(Draft7, root, LAX), Context(Draft2020, Translate(root), LAX);
    GetAt(root.fields, 0);
    assert IsPlain("const");
    assert !PlainOk(c7.rules, "const", constant, Obj([]));
    SingleKeyword(c7, "const", constant, Obj([]));
    assert TranslateFields(constant, 1) == [];
    assert TranslateFields(root, 1) == [Field("const", Obj([]))];
    SingleKeyword(c20, "const", Obj([]), Obj([]));
    var s := Obj([Field("const", Obj([]))]);
    GetAt(s.fields, 0);
    forall key | IsPlain(key) && key != "const" ensures !Has(s.fields, key) {
      Finds(s.fields, 1, key);
    }
  }

  /** Draft 7 ignores a keyword that 2020-12 knows. */
  lemma NewKeywordCounterexample()
    ensures var root := Obj([Field("prefixItems", Arr([Bool(false)]))]);
            && Valid(Context(Draft7, root, LAX), root, Arr([Null]), 0)
            && !Valid(Context(Draft2020, Translate(root), LAX), Translate(root), Arr([Null]), 0)
  {
    var tuple := Arr([Bool(false)]);
    var root := Obj([Field("prefixItems", tuple)]);
    var c7, c20 := Context(Draft7, root, LAX), Context(Draft2020, Translate(root), LAX);
    PrefixItemsIn(c7, root);
    UntouchedKept(root);
    PrefixItemsIn(c20, root);
  }

  /** A bound on `contains` that Draft 7 ignores. */
  lemma BoundCounterexample()
    ensures var root := Obj([Field("contains", Bool(true)), Field("minContains", Num(0.0))]);
            && !Valid(Context(Draft7, root, LAX), root, Arr([]), 0)
            && Valid(Context(Draft2020, Translate(root), LAX), Translate(root), Arr([]), 0)
  {
    var root := Obj([Field("contains", Bool(true)), Field("minContains", Num(0.0))]);
    BoundIn(Context(Draft7, root, LAX), root);
    UntouchedKept(root);
    BoundIn(Context(Draft2020, root, LAX), root);
  }

  lemma BoundIn(c: Context, s: Json)
    requires s == Obj([Field("contains", Bool(true)), Field("minContains", Num(0.0))])
    ensures Valid(c, s, Arr([]), 0) <==> c.dialect.Draft2020?
  {
    assert Distinct(s.fields);
    GetAt(s.fields, 0);
    GetAt(s.fields, 1);
    forall other | other != "contains" && other != "minContains" ensures Get(s.fields, other).None? {
      Finds(s.fields, 2, other);
    }
    ValidWithoutReference(c, s, Arr([]), 0);
    assert AllOf(c, s, Arr([]), 0) && AnyOf(c, s, Arr([]), 0) && OneOf(c, s, Arr([]), 0);
    assert Combines(c, s, Arr([]), 0);
    assert Contained(c, s, [], 0, 0) == 0;
    assert Arr([]).items == [];
    assert ContainsOk(c, s, 0) <==> c.dialect.Draft2020?;
  }

  lemma PrefixItemsIn(c: Context, s: Json)
    requires s == Obj([Field("prefixItems", Arr([Bool(false)]))])
    ensures Valid(c, s, Arr([Null]), 0) <==> c.dialect.Draft7?
  {
    GetAt(s.fields, 0);
    Finds(s.fields, 1, "items");
    Finds(s.fields, 1, "contains");
    forall key | IsPlain(key) ensures !Has(s.fields, key) {
      Finds(s.fields, 1, key);
    }
    assert ElementOk(c, s, 0, Arr([Null]).items[0], 0) == c.dialect.Draft7?;
    SingleKeyword(c, "prefixItems", Arr([Bool(false)]), Arr([Null]));
  }
}
