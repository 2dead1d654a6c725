/** When an instance is valid under a Draft 7 or a 2020-12 schema, for the keywords listed here. */
module SchemaSemantics {
  import opened JsonValues
  import opened Wrappers

  datatype Dialect = Draft7 | Draft2020

  /**
   * What the dialects leave to others or agree on word for word: what a `format` accepts, which names a pattern matches,
   * and the verdicts of the keywords that compare a value with a number or a string of their own.
   */
  datatype Rules = Rules(
    format: (string, string) -> bool, matches: (string, string) -> bool, compare: (string, Json, Json) -> bool)

  /** `root` is the document references are resolved in. */
  datatype Context = Context(dialect: Dialect, root: Json, rules: Rules)

  /** Keywords judged by `compare`. */
  predicate IsComparing(key: string) {
    key in {"maximum", "exclusiveMaximum", "exclusiveMinimum", "multipleOf", "maxLength", "minLength", "pattern",
            "maxItems", "minItems", "uniqueItems", "maxProperties", "minProperties"}
  }

  /** Keywords whose verdict depends on nothing but their own value and the instance. */
  predicate IsPlain(key: string) {
    key in {"type", "enum", "const", "minimum", "required", "format"} || IsComparing(key)
  }

  function TypeAdmits(name: string, v: Json): bool {
    match v
    case Null => name == "null"
    case Bool(_) => name == "boolean"
    case Num(n) => name == "number" || (name == "integer" && n.Floor as real == n)
    case Str(_) => name == "string"
    case Arr(_) => name == "array"
    case Obj(_) => name == "object"
  }

  ghost predicate TypeOk(types: Json, v: Json) {
    match types
    case Str(name) => TypeAdmits(name, v)
    case Arr(names) => exists i :: 0 <= i < |names| && names[i].Str? && TypeAdmits(names[i].s, v)
    case _ => true
  }

  ghost predicate RequiresAll(names: Json, members: seq<Field>) {
    names.Arr? ==> forall i :: 0 <= i < |names.items| && names.items[i].Str? ==> Has(members, names.items[i].s)
  }

  ghost predicate PlainOk(rules: Rules, key: string, value: Json, v: Json) {
    match key
    case "type" => TypeOk(value, v)
    case "enum" => value.Arr? ==> v in value.items
    case "const" => v == value
    case "minimum" => value.Num? && v.Num? ==> value.n <= v.n
    case "required" => v.Obj? ==> RequiresAll(value, v.fields)
    case "format" => value.Str? && v.Str? ==> rules.format(value.s, v.s)
    case _ => rules.compare(key, value, v)
  }

  ghost predicate PlainKeywordsOk(c: Context, s: Json, v: Json)
    requires s.Obj?
  {
    forall key :: IsPlain(key) && Has(s.fields, key) ==> PlainOk(c.rules, key, Get(s.fields, key).value, v)
  }

  /** `~1` and `~0` in one token of a JSON pointer (RFC 6901, section 4). */
  function Unescape(s: string): string {
    if |s| < 2 then s
    else if s[..2] == "~1" then "/" + Unescape(s[2..])
    else if s[..2] == "~0" then "~" + Unescape(s[2..])
    else [s[0]] + Unescape(s[1..])
  }

  /** Where the token that starts at `i` ends. */
  function TokenEnd(path: string, i: nat): (n: nat)
    requires i <= |path|
    ensures i <= n <= |path|
    decreases |path| - i
  {
    if i == |path| || path[i] == '/' then i else TokenEnd(path, i + 1)
  }

  /** What a JSON pointer leads to, through objects. */
  function Pointer(v: Json, path: string): Option<Json>
    decreases |path|
  {
    if path == "" then Some(v)
    else if path[0] != '/' || !v.Obj? then None
    else
      var n := TokenEnd(path, 1);
      match Get(v.fields, Unescape(path[1..n]))
      case Some(part) => Pointer(part, path[n..])
      case None => None
  }

  /** A reference within the document. */
  function Resolve(c: Context, r: string): Option<Json> {
    if r == "" || r[0] != '#' then None else Pointer(c.root, r[1..])
  }

  function Definition(root: Json, key: string, name: string): Option<Json> {
    if !root.Obj? then None
    else
      match Get(root.fields, key)
      case Some(Obj(definitions)) => Get(definitions, name)
      case _ => None
  }

  lemma {:induction false} TokenEndIs(path: string, i: nat, n: nat)
    requires i <= n <= |path| && (forall j :: i <= j < n ==> path[j] != '/') && (n < |path| ==> path[n] == '/')
    ensures TokenEnd(path, i) == n
    decreases n - i
  {
    if i < n {
      TokenEndIs(path, i + 1, n);
    }
  }

  lemma PointerStep(v: Json, path: string, token: string, rest: string)
    requires path == "/" + token + rest && '/' !in token && (rest != "" ==> rest[0] == '/')
    ensures Pointer(v, path)
         == if !v.Obj? then None
            else var part := Get(v.fields, Unescape(token)); if part.Some? then Pointer(part.value, rest) else None
  {
    TokenEndIs(path, 1, 1 + |token|);
    assert path[1..1 + |token|] == token && path[1 + |token|..] == rest;
  }

  lemma {:induction false} UnescapePlain(s: string)
    requires '~' !in s
    ensures Unescape(s) == s
  {
    if |s| >= 2 {
      UnescapePlain(s[1..]);
    }
  }

  /** A reference that goes on from a definition. */
  lemma ResolveFrom(c: Context, key: string, name: string, rest: string)
    requires '/' !in key && '~' !in key && '/' !in name && (rest != "" ==> rest[0] == '/')
    ensures Resolve(c, "#/" + key + "/" + name + rest)
         == if !c.root.Obj? then None
            else
              match Get(c.root.fields, key)
              case Some(Obj(parts)) => var part := Get(parts, Unescape(name)); if part.Some? then Pointer(part.value, rest) else None
              case _ => None
  {
    var tail := "/" + name + rest;
    var path := "/" + key + tail;
    assert ("#/" + key + "/" + name + rest)[1..] == path;
    PointerStep(c.root, path, key, tail);
    UnescapePlain(key);
    if c.root.Obj? && Has(c.root.fields, key) {
      PointerStep(Get(c.root.fields, key).value, tail, name, rest);
    }
  }

  /** A reference to a definition by its name. */
  lemma ResolveDefinition(c: Context, key: string, name: string)
    requires '/' !in key && '~' !in key && '/' !in name
    ensures Resolve(c, "#/" + key + "/" + name) == Definition(c.root, key, Unescape(name))
  {
    ResolveFrom(c, key, name, "");
    assert "#/" + key + "/" + name + "" == "#/" + key + "/" + name;
  }

  /**
   * Validity with at most `fuel` references followed. Draft 7 ignores everything beside a `$ref`;
   * 2020-12 applies it too.
   */
  ghost predicate Valid(c: Context, s: Json, v: Json, fuel: nat)
    decreases fuel, s, 2
  {
    match s
    case Bool(b) => b
    case Obj(fields) => (
      match Get(fields, "$ref")
      case Some(Str(r)) =>
        && fuel > 0
        && Resolve(c, r).Some?
        && Valid(c, Resolve(c, r).value, v, fuel - 1)
        && (c.dialect.Draft2020? ==> Asserts(c, s, v, fuel))
      case _ => Asserts(c, s, v, fuel))
    case _ => false
  }

  ghost predicate Asserts(c: Context, s: Json, v: Json, fuel: nat)
    requires s.Obj?
    decreases fuel, s, 1
  {
    && PlainKeywordsOk(c, s, v)
    && Combines(c, s, v, fuel)
    && (v.Arr? ==> Elements(c, s, v.items, fuel))
    && (v.Obj? ==> Members(c, s, v.fields, fuel))
    && (v.Obj? ==> Depends(c, s, v, fuel))
  }

  /** The schema under `key`, if there is one, admits `v`. */
  ghost predicate Holds(c: Context, s: Json, key: string, v: Json, fuel: nat)
    requires s.Obj?
    decreases fuel, s, 0, 0
  {
    var part := Member(s, key);
    part.Some? ==> Valid(c, part.value, v, fuel)
  }

  ghost predicate Combines(c: Context, s: Json, v: Json, fuel: nat)
    requires s.Obj?
    decreases fuel, s, 0, 2
  {
    && AllOf(c, s, v, fuel)
    && AnyOf(c, s, v, fuel)
    && OneOf(c, s, v, fuel)
    && (Has(s.fields, "not") ==> !Holds(c, s, "not", v, fuel))
    && (Has(s.fields, "if") ==>
          if Holds(c, s, "if", v, fuel) then Holds(c, s, "then", v, fuel) else Holds(c, s, "else", v, fuel))
  }

  /** The verdicts of a list of schemas on one instance. */
  ghost function Verdicts(c: Context, parts: Json, v: Json, fuel: nat): (r: seq<bool>)
    requires parts.Arr?
    decreases fuel, parts, 3
  {
    seq(|parts.items|, i requires 0 <= i < |parts.items| => Valid(c, parts.items[i], v, fuel))
  }

  ghost predicate AllOf(c: Context, s: Json, v: Json, fuel: nat)
    requires s.Obj?
    decreases fuel, s, 0, 1
  {
    var parts := Member(s, "allOf");
    parts.Some? && parts.value.Arr? ==> false !in Verdicts(c, parts.value, v, fuel)
  }

  ghost predicate AnyOf(c: Context, s: Json, v: Json, fuel: nat)
    requires s.Obj?
    decreases fuel, s, 0, 1
  {
    var parts := Member(s, "anyOf");
    parts.Some? && parts.value.Arr? ==> true in Verdicts(c, parts.value, v, fuel)
  }

  ghost predicate OneOf(c: Context, s: Json, v: Json, fuel: nat)
    requires s.Obj?
    decreases fuel, s, 0, 1
  {
    var parts := Member(s, "oneOf");
    parts.Some? && parts.value.Arr? ==> multiset(Verdicts(c, parts.value, v, fuel))[true] == 1
  }

  /** How many of the first `n` items the schema under `contains` admits. */
  ghost function Contained(c: Context, s: Json, items: seq<Json>, n: nat, fuel: nat): nat
    requires s.Obj? && n <= |items|
    decreases fuel, s, 0, 1, n
  {
    if n == 0 then 0
    else Contained(c, s, items, n - 1, fuel) + if Holds(c, s, "contains", items[n - 1], fuel) then 1 else 0
  }

  /** Draft 7 asks for one such item; 2020-12 has bounds, the lower one 1 unless given. */
  predicate ContainsOk(c: Context, s: Json, n: nat)
    requires s.Obj?
  {
    if c.dialect.Draft7? then n > 0
    else
      && (match Member(s, "minContains") case Some(Num(m)) => m <= n as real case _ => n > 0)
      && (match Member(s, "maxContains") case Some(Num(m)) => n as real <= m case _ => true)
  }

  /** items in both of its Draft 7 forms, prefixItems, contains. */
  ghost predicate Elements(c: Context, s: Json, items: seq<Json>, fuel: nat)
    requires s.Obj?
    decreases fuel, s, 0, 2
  {
    && (forall i :: 0 <= i < |items| ==> ElementOk(c, s, i, items[i], fuel))
    && (Has(s.fields, "contains") ==> ContainsOk(c, s, Contained(c, s, items, |items|, fuel)))
  }

  ghost predicate ElementOk(c: Context, s: Json, i: nat, item: Json, fuel: nat)
    requires s.Obj?
    decreases fuel, s, 0, 1
  {
    var tuple := Member(s, if c.dialect.Draft7? then "items" else "prefixItems");
    if tuple.Some? && tuple.value.Arr? then
      if i < |tuple.value.items| then Valid(c, tuple.value.items[i], item, fuel)
      else Holds(c, s, if c.dialect.Draft7? then "additionalItems" else "items", item, fuel)
    else Holds(c, s, "items", item, fuel)
  }

  /** The name matches a pattern of the schema. */
  ghost predicate PatternHit(c: Context, s: Json, name: string)
    requires s.Obj?
  {
    var patterns := Member(s, "patternProperties");
    patterns.Some? && patterns.value.Obj? && exists p :: Has(patterns.value.fields, p) && c.rules.matches(p, name)
  }

  /** Every pattern the name matches admits the member. */
  ghost predicate PatternsOk(c: Context, s: Json, m: Field, fuel: nat)
    requires s.Obj?
    decreases fuel, s, 0, 0
  {
    var patterns := Member(s, "patternProperties");
    patterns.Some? && patterns.value.Obj? ==>
      forall p :: Has(patterns.value.fields, p) && c.rules.matches(p, m.key) ==> Holds(c, patterns.value, p, m.value, fuel)
  }

  /** properties, patternProperties, additionalProperties, propertyNames. */
  ghost predicate Members(c: Context, s: Json, members: seq<Field>, fuel: nat)
    requires s.Obj?
    decreases fuel, s, 0, 2
  {
    forall i :: 0 <= i < |members| ==>
      && MemberOk(c, s, members[i], fuel)
      && Holds(c, s, "propertyNames", Str(members[i].key), fuel)
  }

  ghost predicate MemberOk(c: Context, s: Json, m: Field, fuel: nat)
    requires s.Obj?
    decreases fuel, s, 0, 1
  {
    var properties := Member(s, "properties");
    && PatternsOk(c, s, m, fuel)
    && if properties.Some? && properties.value.Obj? && Has(properties.value.fields, m.key)
       then Holds(c, properties.value, m.key, m.value, fuel)
       else PatternHit(c, s, m.key) || Holds(c, s, "additionalProperties", m.value, fuel)
  }

  /** dependencies, split by 2020-12 into dependentRequired and dependentSchemas. */
  ghost predicate Depends(c: Context, s: Json, v: Json, fuel: nat)
    requires s.Obj? && v.Obj?
    decreases fuel, s, 0, 2
  {
    forall i :: 0 <= i < |v.fields| ==> DependencyOk(c, s, v.fields[i].key, v, fuel)
  }

  ghost predicate DependencyOk(c: Context, s: Json, name: string, v: Json, fuel: nat)
    requires s.Obj? && v.Obj?
    decreases fuel, s, 0, 1
  {
    match c.dialect
    case Draft7 =>
      var deps := Member(s, "dependencies");
      deps.Some? && deps.value.Obj? && Has(deps.value.fields, name) ==>
        var d := Member(deps.value, name).value;
        if d.Arr? then RequiresAll(d, v.fields) else Valid(c, d, v, fuel)
    case Draft2020 =>
      var required, schemas := Member(s, "dependentRequired"), Member(s, "dependentSchemas");
      && (required.Some? && required.value.Obj? && Has(required.value.fields, name) ==>
            RequiresAll(Member(required.value, name).value, v.fields))
      && (schemas.Some? && schemas.value.Obj? ==> Holds(c, schemas.value, name, v, fuel))
  }

  predicate IsReference(s: Json)
    requires s.Obj?
  {
    var r := Get(s.fields, "$ref");
    r.Some? && r.value.Str?
  }

  lemma ValidReference(c: Context, s: Json, r: string, target: Option<Json>, v: Json, fuel: nat)
    requires s.Obj? && Get(s.fields, "$ref") == Some(Str(r)) && Resolve(c, r) == target
    ensures Valid(c, s, v, fuel)
        <==> && fuel > 0
             && target.Some?
             && Valid(c, target.value, v, fuel - 1)
             && (c.dialect.Draft2020? ==> Asserts(c, s, v, fuel))
  {
  }

  lemma ValidWithoutReference(c: Context, s: Json, v: Json, fuel: nat)
    requires s.Obj? && !IsReference(s)
    ensures Valid(c, s, v, fuel) <==> Asserts(c, s, v, fuel)
  {
  }

  // ---- Schemas made of one kind of keyword -----------------------------------------------------

  ghost predicate OnlyPlainOrOneOf(s: Json)
    requires s.Obj?
  {
    forall key :: !IsPlain(key) && key !in {"oneOf"} ==> Get(s.fields, key).None?
  }

  lemma PartsAreNotPlain()
    ensures !IsPlain("items") && !IsPlain("prefixItems") && !IsPlain("contains")
    ensures !IsPlain("properties") && !IsPlain("patternProperties") && !IsPlain("additionalProperties")
    ensures !IsPlain("propertyNames")
    ensures !IsPlain("dependencies") && !IsPlain("dependentRequired") && !IsPlain("dependentSchemas")
    ensures !IsPlain("$ref") && !IsPlain("allOf") && !IsPlain("anyOf") && !IsPlain("oneOf") && !IsPlain("not") && !IsPlain("if")
  {
  }

  lemma SimpleCombines(c: Context, s: Json, v: Json, fuel: nat)
    requires s.Obj? && !Has(s.fields, "allOf") && !Has(s.fields, "anyOf") && !Has(s.fields, "oneOf") && !Has(s.fields, "if")
    ensures Combines(c, s, v, fuel) <==> (Has(s.fields, "not") ==> !Holds(c, s, "not", v, fuel))
  {
    hide Valid;
    assert AllOf(c, s, v, fuel) && AnyOf(c, s, v, fuel) && OneOf(c, s, v, fuel);
  }

  lemma NoElementsConstrained(c: Context, s: Json, items: seq<Json>, fuel: nat)
    requires s.Obj? && !Has(s.fields, "items") && !Has(s.fields, "prefixItems") && !Has(s.fields, "contains")
    ensures Elements(c, s, items, fuel)
  {
    forall i | 0 <= i < |items| ensures ElementOk(c, s, i, items[i], fuel) {
    }
  }

  lemma NoMembersConstrained(c: Context, s: Json, members: seq<Field>, fuel: nat)
    requires s.Obj? && !Has(s.fields, "properties") && !Has(s.fields, "patternProperties")
    requires !Has(s.fields, "additionalProperties") && !Has(s.fields, "propertyNames")
    ensures Members(c, s, members, fuel)
  {
    forall i | 0 <= i < |members|
      ensures MemberOk(c, s, members[i], fuel) && Holds(c, s, "propertyNames", Str(members[i].key), fuel)
    {
    }
  }

  lemma NothingDepends(c: Context, s: Json, v: Json, fuel: nat)
    requires s.Obj? && v.Obj? && !Has(s.fields, "dependencies") && !Has(s.fields, "dependentRequired")
    requires !Has(s.fields, "dependentSchemas")
    ensures Depends(c, s, v, fuel)
  {
    forall i | 0 <= i < |v.fields| ensures DependencyOk(c, s, v.fields[i].key, v, fuel) {
    }
  }

  lemma NoPartsConstrained(c: Context, s: Json, v: Json, fuel: nat)
    requires s.Obj? && OnlyPlainOrOneOf(s)
    ensures v.Arr? ==> Elements(c, s, v.items, fuel)
    ensures v.Obj? ==> Members(c, s, v.fields, fuel) && Depends(c, s, v, fuel)
  {
    PartsAreNotPlain();
    hide IsPlain, Elements, Members, Depends, Get;
    if v.Arr? {
      NoElementsConstrained(c, s, v.items, fuel);
    }
    if v.Obj? {
      NoMembersConstrained(c, s, v.fields, fuel);
      NothingDepends(c, s, v, fuel);
    }
  }

  lemma PlainOrOneOfSchema(c: Context, s: Json, v: Json, fuel: nat)
    requires s.Obj? && forall i :: 0 <= i < |s.fields| ==> (IsPlain(s.fields[i].key) || s.fields[i].key in {"oneOf"})
    ensures Valid(c, s, v, fuel) <==> PlainKeywordsOk(c, s, v) && OneOf(c, s, v, fuel)
  {
    hide IsPlain, PlainKeywordsOk, OneOf, Elements, Members, Depends;
    forall key | !IsPlain(key) && key !in {"oneOf"} ensures Get(s.fields, key).None? {
      Finds(s.fields, |s.fields|, key);
    }
    NoPartsConstrained(c, s, v, fuel);
    PartsAreNotPlain();
    assert Get(s.fields, "$ref").None?;
    assert AllOf(c, s, v, fuel) && AnyOf(c, s, v, fuel);
    assert Combines(c, s, v, fuel) == OneOf(c, s, v, fuel);
    assert Asserts(c, s, v, fuel) == (PlainKeywordsOk(c, s, v) && OneOf(c, s, v, fuel));
  }

  lemma PlainSchema(c: Context, s: Json, v: Json, fuel: nat)
    requires s.Obj? && forall i :: 0 <= i < |s.fields| ==> IsPlain(s.fields[i].key)
    ensures Valid(c, s, v, fuel) <==> PlainKeywordsOk(c, s, v)
  {
    PlainOrOneOfSchema(c, s, v, fuel);
    Finds(s.fields, |s.fields|, "oneOf");
  }

  lemma OneOfSchema(c: Context, parts: Json, v: Json, fuel: nat)
    requires parts.Arr?
    ensures Valid(c, Obj([Field("oneOf", parts)]), v, fuel)
       <==> multiset(Verdicts(c, parts, v, fuel))[true] == 1
  {
    var s := Obj([Field("oneOf", parts)]);
    PlainOrOneOfSchema(c, s, v, fuel);
    GetAt(s.fields, 0);
    forall key | IsPlain(key) ensures !Has(s.fields, key) {
      Finds(s.fields, 1, key);
    }
  }
}
