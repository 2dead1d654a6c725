/** `constrain` of scripts/public-api/generate.ts: tighten the branches of one primitive type. */
module SchemaConstraints {
  import opened JsonValues
  import opened Wrappers
  import opened SchemaSemantics

  /** The constraints `addWireConstraints` applies, each to one primitive. */
  datatype Constraint = DateTime | Count | NonNegative {
    function Primitive(): string {
      if DateTime? then "string" else "number"
    }

    function Keyword(): string {
      if DateTime? then "format" else "minimum"
    }

    function KeywordValue(): Json {
      if DateTime? then Str("date-time") else Num(0.0)
    }
  }

  function RenameType(t: Json, primitive: string): Json {
    if t == Str(primitive) then Str("integer") else t
  }

  function RenameTypes(types: seq<Json>, primitive: string): seq<Json> {
    seq(|types|, i requires 0 <= i < |types| => RenameType(types[i], primitive))
  }

  /** `types.includes(primitive)`. */
  predicate Names(fields: seq<Field>, primitive: string) {
    match Get(fields, "type")
    case Some(Arr(types)) => Str(primitive) in types
    case Some(t) => t == Str(primitive)
    case None => false
  }

  /** `Object.assign(schema, constraints)`, keeping a union of types a union. */
  function Assign(fields: seq<Field>, k: Constraint): seq<Field> {
    if !Names(fields, k.Primitive()) then fields
    else
      var tightened := Put(fields, k.Keyword(), k.KeywordValue());
      if k.Count? then
        match Get(fields, "type")
        case Some(Arr(types)) => Put(tightened, "type", Arr(RenameTypes(types, "number")))
        case _ => Put(tightened, "type", Str("integer"))
      else tightened
  }

  function Constrain(s: Json, k: Constraint): (r: Json)
    requires s.Obj?
    ensures r.Obj?
    decreases s, 2
  {
    Obj(WithList(WithList(WithList(Assign(s.fields, k), s, "anyOf", k), s, "oneOf", k), s, "allOf", k))
  }

  function WithList(fields: seq<Field>, s: Json, key: string, k: Constraint): seq<Field>
    requires s.Obj?
    decreases s, 1
  {
    var list := Member(s, key);
    if list.Some? && list.value.Arr? then Put(fields, key, ConstrainAll(list.value, k)) else fields
  }

  function ConstrainAll(list: Json, k: Constraint): (r: Json)
    requires list.Arr?
    ensures r.Arr? && |r.items| == |list.items|
    decreases list, 3
  {
    Arr(seq(|list.items|, i requires 0 <= i < |list.items| => ConstrainPart(list.items[i], k)))
  }

  function ConstrainPart(part: Json, k: Constraint): Json
    decreases part, 3
  {
    if part.Obj? then Constrain(part, k) else part
  }

  /** The update as the source runs it: assign, then walk the three lists. */
  method ConstrainSchema(s: Json, k: Constraint) returns (r: Json)
    requires s.Obj?
    ensures r == Constrain(s, k)
    decreases s, 2
  {
    var fields := s.fields;
    if Names(fields, k.Primitive()) {
      var before := Get(fields, "type");
      fields := Put(fields, k.Keyword(), k.KeywordValue());
      if k.Count? {
        if before.Some? && before.value.Arr? {
          fields := Put(fields, "type", Arr(RenameTypes(before.value.items, "number")));
        } else {
          fields := Put(fields, "type", Str("integer"));
        }
      }
    }
    fields := ConstrainList(fields, s, "anyOf", k);
    fields := ConstrainList(fields, s, "oneOf", k);
    fields := ConstrainList(fields, s, "allOf", k);
    r := Obj(fields);
  }

  method ConstrainList(fields: seq<Field>, s: Json, key: string, k: Constraint) returns (r: seq<Field>)
    requires s.Obj?
    ensures r == WithList(fields, s, key, k)
    decreases s, 1
  {
    r := fields;
    var list := Member(s, key);
    if list.Some? && list.value.Arr? {
      var items := list.value.items;
      var parts: seq<Json> := [];
      for i := 0 to |items|
        invariant |parts| == i && parts == ConstrainAll(list.value, k).items[..i]
      {
        var part := items[i];
        if part.Obj? {
          part := ConstrainSchema(part, k);
        }
        parts := parts + [part];
      }
      assert Arr(parts) == ConstrainAll(list.value, k);
      r := Put(r, key, Arr(parts));
    }
  }

  const Lists: set<string> := {"anyOf", "oneOf", "allOf"}

  /** Only the three lists, the type and the added keyword change. */
  lemma ConstrainedMember(s: Json, k: Constraint, key: string)
    requires s.Obj?
    ensures Member(Constrain(s, k), key)
         == var before := Member(s, key);
            if key in Lists then (if before.Some? && before.value.Arr? then Some(ConstrainAll(before.value, k)) else before)
            else Get(Assign(s.fields, k), key)
  {
    var a := Assign(s.fields, k);
    var b := WithList(a, s, "anyOf", k);
    var c := WithList(b, s, "oneOf", k);
    AssignedMember(s.fields, k, key);
    WithListGet(a, s, "anyOf", k, key);
    WithListGet(b, s, "oneOf", k, key);
    WithListGet(c, s, "allOf", k, key);
  }

  lemma WithListGet(fields: seq<Field>, s: Json, list: string, k: Constraint, key: string)
    requires s.Obj?
    ensures Get(WithList(fields, s, list, k), key)
         == if key == list && Has(s.fields, list) && Get(s.fields, list).value.Arr?
            then Some(ConstrainAll(Get(s.fields, list).value, k)) else Get(fields, key)
  {
    if Has(s.fields, list) && Get(s.fields, list).value.Arr? {
      GetPut(fields, list, ConstrainAll(Get(s.fields, list).value, k), key);
    }
  }

  lemma AssignedMember(fields: seq<Field>, k: Constraint, key: string)
    ensures key != "type" && key != k.Keyword() ==> Get(Assign(fields, k), key) == Get(fields, key)
    ensures !Names(fields, k.Primitive()) ==> Get(Assign(fields, k), key) == Get(fields, key)
    ensures Names(fields, k.Primitive()) && key == k.Keyword() ==> Get(Assign(fields, k), key) == Some(k.KeywordValue())
    ensures Names(fields, k.Primitive()) && key == "type" ==>
              Get(Assign(fields, k), key) == Some(if k.Count? then
                (match Get(fields, "type")
                 case Some(Arr(types)) => Arr(RenameTypes(types, "number"))
                 case _ => Str("integer"))
                else Get(fields, "type").value)
  {
    var tightened := Put(fields, k.Keyword(), k.KeywordValue());
    GetPut(fields, k.Keyword(), k.KeywordValue(), key);
    match Get(fields, "type")
    case Some(Arr(types)) => GetPut(tightened, "type", Arr(RenameTypes(types, "number")), key);
    case _ => GetPut(tightened, "type", Str("integer"), key);
  }

  // ---- A document with the constraint applied at some places ---------------------------------

  /** What is claimed of a verdict: that it stays, or that it only gets stricter. */
  datatype Claim = Same | Stricter

  predicate Verdict(m: Claim, before: bool, after: bool) {
    if m.Same? then before == after else after ==> before
  }

  /** Keywords holding one schema; `items` may hold a list instead. */
  const PartKeywords: set<string> :=
    {"not", "if", "then", "else", "additionalProperties", "propertyNames", "contains", "additionalItems"}

  /** Keywords holding a list of schemas. */
  const ListKeywords: set<string> := {"anyOf", "oneOf", "allOf", "prefixItems"}

  /** Keywords holding schemas by name. */
  const NamedKeywords: set<string> := {"properties", "patternProperties", "dependencies", "dependentSchemas", "definitions", "$defs"}

  predicate IsDefinition(r: string, key: string) {
    var prefix := "#/" + key + "/";
    prefix <= r && '/' !in r[|prefix|..]
  }

  /** A reference to the whole document, or to a definition by its name. */
  predicate Local(r: string) {
    r == "#" || IsDefinition(r, "definitions") || IsDefinition(r, "$defs")
  }

  predicate LocalReference(s: Json)
    requires s.Obj?
  {
    match Get(s.fields, "$ref")
    case Some(Str(r)) => Local(r)
    case _ => true
  }

  /** No part of the document but the schema itself has a say in its verdict. */
  predicate Plain(s: Json) {
    s.Obj? ==> forall i :: 0 <= i < |s.fields| ==> IsPlain(s.fields[i].key)
  }

  predicate PlainPart(s: Json) {
    Plain(s) && (s.Arr? ==> forall i :: 0 <= i < |s.items| ==> Plain(s.items[i]))
  }

  /**
   * Where the claim needs a part untouched: rejecting more under these can accept more; and property names are strings,
   * so a constraint on strings reaches them.
   */
  predicate Frozen(m: Claim, k: Constraint, key: string) {
    match m
    case Same => k.DateTime? && key == "propertyNames"
    case Stricter => key == "not" || key == "if" || key == "oneOf" || key == "maxContains"
  }

  function AssignedType(fields: seq<Field>, k: Constraint): Option<Json> {
    if k.Count? then
      match Get(fields, "type")
      case Some(Arr(types)) => Some(Arr(RenameTypes(types, "number")))
      case _ => Some(Str("integer"))
    else Get(fields, "type")
  }

  /** The keyword the constraint writes was not stricter before. */
  predicate NotLoosened(before: Option<Json>, k: Constraint) {
    match before
    case None => true
    case Some(Str(f)) => k.DateTime? ==> f == "date-time"
    case Some(Num(n)) => !k.DateTime? ==> n <= 0.0
    case _ => true
  }

  predicate Kept(a: Json, b: Json, k: Constraint)
    requires a.Obj? && b.Obj?
  {
    Get(b.fields, "type") == Get(a.fields, "type") && Get(b.fields, k.Keyword()) == Get(a.fields, k.Keyword())
  }

  predicate Assigned(m: Claim, a: Json, b: Json, k: Constraint)
    requires a.Obj? && b.Obj?
  {
    && Names(a.fields, k.Primitive())
    && Get(b.fields, "type") == AssignedType(a.fields, k)
    && Get(b.fields, k.Keyword()) == Some(k.KeywordValue())
    && (m.Stricter? ==> NotLoosened(Get(a.fields, k.Keyword()), k))
  }

  /**
   * `b` is the schema `a` with the constraint applied at some of its places, and both are such as the claim needs:
   * references are local, and the frozen parts are plain and untouched.
   */
  ghost predicate Related(m: Claim, a: Json, b: Json, k: Constraint)
    decreases a, 3
  {
    if a.Obj? && b.Obj? then
      && LocalReference(a)
      && (Kept(a, b, k) || Assigned(m, a, b, k))
      && forall key :: KeyRelated(m, a, b, key, k)
    else !a.Obj? && a == b
  }

  ghost predicate KeyRelated(m: Claim, a: Json, b: Json, key: string, k: Constraint)
    requires a.Obj? && b.Obj?
    decreases a, 2
  {
    key != "type" && key != k.Keyword() ==>
      var x, y := Member(a, key), Member(b, key);
      (x.Some? <==> y.Some?) && (x.Some? && y.Some? ==> PartRelated(m, key, x.value, y.value, k))
  }

  ghost predicate PartRelated(m: Claim, key: string, x: Json, y: Json, k: Constraint)
    decreases x, 4
  {
    if Frozen(m, k, key) then x == y && PlainPart(x) && key != "maxContains"
    else if key in PartKeywords then Related(m, x, y, k)
    else if key in ListKeywords then ListRelated(m, x, y, k)
    else if key in NamedKeywords then NamedRelated(m, x, y, k) && (key == "definitions" || key == "$defs" ==> x.Obj?)
    else if key == "items" then if x.Arr? then ListRelated(m, x, y, k) else Related(m, x, y, k)
    else x == y
  }

  ghost predicate ListRelated(m: Claim, x: Json, y: Json, k: Constraint)
    decreases x, 0
  {
    if x.Arr? && y.Arr? then
      |x.items| == |y.items| && forall i :: 0 <= i < |x.items| ==> Related(m, x.items[i], y.items[i], k)
    else !x.Arr? && x == y
  }

  ghost predicate NamedRelated(m: Claim, x: Json, y: Json, k: Constraint)
    decreases x, 1
  {
    if x.Obj? && y.Obj? then forall name :: NameRelated(m, x, y, name, k) else !x.Obj? && x == y
  }

  ghost predicate NameRelated(m: Claim, x: Json, y: Json, name: string, k: Constraint)
    requires x.Obj? && y.Obj?
    decreases x, 0
  {
    var p, q := Member(x, name), Member(y, name);
    (p.Some? <==> q.Some?) && (p.Some? && q.Some? ==> Related(m, p.value, q.value, k))
  }

  /** The primitive admits no part of the value: not itself, no item, no member. */
  ghost predicate Outside(k: Constraint, v: Json)
    decreases v
  {
    && !TypeAdmits(k.Primitive(), v)
    && match v
       case Arr(items) => forall i :: 0 <= i < |items| ==> Outside(k, items[i])
       case Obj(fields) => forall i :: 0 <= i < |fields| ==> assert fields[i] < v; Outside(k, fields[i].value)
       case _ => true
  }

  ghost predicate Admissible(m: Claim, k: Constraint, v: Json) {
    m.Same? ==> Outside(k, v)
  }

  /** One document before and after, each resolving its own references. */
  ghost predicate Documents(m: Claim, c: Context, d: Context, k: Constraint) {
    c.dialect == d.dialect && c.rules == d.rules && Related(m, c.root, d.root, k)
  }

  /** What the relation says of one keyword. */
  lemma Parts(m: Claim, a: Json, b: Json, k: Constraint, key: string)
    requires a.Obj? && Related(m, a, b, k) && key != "type" && key != k.Keyword()
    ensures b.Obj? && (Has(a.fields, key) <==> Has(b.fields, key))
    ensures Has(a.fields, key) ==> PartRelated(m, key, Member(a, key).value, Member(b, key).value, k)
  {
    assert KeyRelated(m, a, b, key, k);
  }

  lemma NameAt(m: Claim, x: Json, y: Json, k: Constraint, name: string)
    requires x.Obj? && NamedRelated(m, x, y, k)
    ensures y.Obj? && (Has(x.fields, name) <==> Has(y.fields, name))
    ensures Has(x.fields, name) ==> Related(m, Member(x, name).value, Member(y, name).value, k)
  {
    assert NameRelated(m, x, y, name, k);
  }

  // ---- Plain keywords ------------------------------------------------------------------------

  lemma OutsideType(types: Json, v: Json)
    requires !v.Num?
    ensures types == Str("number") ==> TypeOk(types, v) == TypeOk(Str("integer"), v)
    ensures types.Arr? ==> TypeOk(types, v) == TypeOk(Arr(RenameTypes(types.items, "number")), v)
  {
    if types.Arr? {
      var renamed := RenameTypes(types.items, "number");
      forall i | 0 <= i < |types.items|
        ensures (renamed[i].Str? && TypeAdmits(renamed[i].s, v)) == (types.items[i].Str? && TypeAdmits(types.items[i].s, v))
      {
      }
    }
  }

  lemma NarrowsType(types: Json, v: Json)
    ensures TypeOk(Str("integer"), v) ==> TypeOk(Str("number"), v)
    ensures types.Arr? && TypeOk(Arr(RenameTypes(types.items, "number")), v) ==> TypeOk(types, v)
  {
    if types.Arr? && TypeOk(Arr(RenameTypes(types.items, "number")), v) {
      var renamed := RenameTypes(types.items, "number");
      var i :| 0 <= i < |renamed| && renamed[i].Str? && TypeAdmits(renamed[i].s, v);
      assert types.items[i].Str? && TypeAdmits(types.items[i].s, v);
    }
  }

  ghost predicate KeywordOk(rules: Rules, s: Json, key: string, v: Json)
    requires s.Obj?
  {
    Has(s.fields, key) ==> PlainOk(rules, key, Get(s.fields, key).value, v)
  }

  lemma TypeRelated(m: Claim, a: Json, b: Json, k: Constraint, rules: Rules, v: Json)
    requires a.Obj? && b.Obj? && (Kept(a, b, k) || Assigned(m, a, b, k)) && Admissible(m, k, v)
    ensures Verdict(m, KeywordOk(rules, a, "type", v), KeywordOk(rules, b, "type", v))
  {
    if Assigned(m, a, b, k) && k.Count? {
      var types := Get(a.fields, "type").value;
      NarrowsType(types, v);
      if m.Same? {
        OutsideType(types, v);
      }
    }
  }

  /** The keyword the constraint writes. */
  lemma AddedRelated(m: Claim, a: Json, b: Json, k: Constraint, rules: Rules, v: Json)
    requires a.Obj? && b.Obj? && (Kept(a, b, k) || Assigned(m, a, b, k)) && Admissible(m, k, v)
    ensures Verdict(m, KeywordOk(rules, a, k.Keyword(), v), KeywordOk(rules, b, k.Keyword(), v))
  {
  }

  lemma PlainIsNoPart(key: string)
    requires IsPlain(key)
    ensures key !in PartKeywords && key !in ListKeywords && key !in NamedKeywords && key != "items"
  {
  }

  lemma KeywordRelated(m: Claim, a: Json, b: Json, k: Constraint, rules: Rules, key: string, v: Json)
    requires a.Obj? && b.Obj? && Related(m, a, b, k) && Admissible(m, k, v) && IsPlain(key)
    ensures Verdict(m, KeywordOk(rules, a, key, v), KeywordOk(rules, b, key, v))
  {
    hide Kept, Assigned, Admissible;
    if key == "type" {
      hide KeywordOk;
      TypeRelated(m, a, b, k, rules, v);
    } else if key == k.Keyword() {
      hide KeywordOk;
      AddedRelated(m, a, b, k, rules, v);
    } else {
      Parts(m, a, b, k, key);
      PlainIsNoPart(key);
      hide IsPlain, PlainOk, Related;
    }
  }

  lemma PlainRelated(m: Claim, a: Json, b: Json, k: Constraint, c: Context, d: Context, v: Json)
    requires a.Obj? && b.Obj? && Related(m, a, b, k) && Admissible(m, k, v) && c.rules == d.rules
    ensures Verdict(m, PlainKeywordsOk(c, a, v), PlainKeywordsOk(d, b, v))
  {
    forall key | IsPlain(key)
      ensures Verdict(m, KeywordOk(c.rules, a, key, v), KeywordOk(c.rules, b, key, v))
    {
      KeywordRelated(m, a, b, k, c.rules, key, v);
    }
    assert PlainKeywordsOk(c, a, v) <==> forall key :: IsPlain(key) ==> KeywordOk(c.rules, a, key, v);
    assert PlainKeywordsOk(d, b, v) <==> forall key :: IsPlain(key) ==> KeywordOk(c.rules, b, key, v);
  }

  // ---- Parts ---------------------------------------------------------------------------------

  /** A plain schema judges alike in every document. */
  lemma PlainAnywhere(c: Context, d: Context, s: Json, v: Json, fuel: nat)
    requires Plain(s) && c.rules == d.rules
    ensures Valid(c, s, v, fuel) == Valid(d, s, v, fuel)
  {
    if s.Obj? {
      PlainSchema(c, s, v, fuel);
      PlainSchema(d, s, v, fuel);
    }
  }

  lemma HoldsRelated(
    m: Claim, c: Context, d: Context, a: Json, b: Json, k: Constraint, key: string, v: Json, fuel: nat)
    requires Documents(m, c, d, k) && a.Obj? && b.Obj? && Related(m, a, b, k)
    requires key in PartKeywords + {"items"}
    requires Frozen(m, k, key) || Admissible(m, k, v)
    ensures Has(a.fields, key) == Has(b.fields, key)
    ensures Verdict(m, Holds(c, a, key, v, fuel), Holds(d, b, key, v, fuel))
    ensures Frozen(m, k, key) ==> Holds(c, a, key, v, fuel) == Holds(d, b, key, v, fuel)
    decreases fuel, a, 0
  {
    Parts(m, a, b, k, key);
    var x, y := Member(a, key), Member(b, key);
    if x.Some? {
      if Frozen(m, k, key) {
        PlainAnywhere(c, d, x.value, v, fuel);
      } else if x.value.Arr? {
        assert y.value.Arr? && !Valid(c, x.value, v, fuel) && !Valid(d, y.value, v, fuel);
      } else {
        ValidRelated(m, c, d, x.value, y.value, k, v, fuel);
      }
    }
  }

  lemma VerdictsRelated(m: Claim, c: Context, d: Context, x: Json, y: Json, k: Constraint, v: Json, fuel: nat)
    requires Documents(m, c, d, k) && x.Arr? && y.Arr? && ListRelated(m, x, y, k) && Admissible(m, k, v)
    ensures |Verdicts(c, x, v, fuel)| == |Verdicts(d, y, v, fuel)|
    ensures forall i :: 0 <= i < |x.items| ==> Verdict(m, Verdicts(c, x, v, fuel)[i], Verdicts(d, y, v, fuel)[i])
    decreases fuel, x, 9
  {
    forall i | 0 <= i < |x.items|
      ensures Verdict(m, Valid(c, x.items[i], v, fuel), Valid(d, y.items[i], v, fuel))
    {
      ValidRelated(m, c, d, x.items[i], y.items[i], k, v, fuel);
    }
  }

  /** What the verdicts of two lists say of the combination under one keyword. */
  lemma CombinedRelated(m: Claim, p: seq<bool>, q: seq<bool>)
    requires |p| == |q| && forall i :: 0 <= i < |p| ==> Verdict(m, p[i], q[i])
    ensures Verdict(m, false !in p, false !in q) && Verdict(m, true in p, true in q)
    ensures m.Same? ==> p == q
  {
    if m.Stricter? && false in p {
      var i :| 0 <= i < |p| && !p[i];
      assert !q[i];
    }
    if m.Stricter? && true in q {
      var i :| 0 <= i < |q| && q[i];
      assert p[i];
    }
    if m.Same? {
      assert p == q;
    }
  }

  lemma ListKeywordRelated(
    m: Claim, c: Context, d: Context, a: Json, b: Json, k: Constraint, key: string, v: Json, fuel: nat)
    requires Documents(m, c, d, k) && a.Obj? && b.Obj? && Related(m, a, b, k) && Admissible(m, k, v)
    requires key in {"allOf", "anyOf"}
    ensures var x, y := Member(a, key), Member(b, key);
            && (x.Some? && x.value.Arr? <==> y.Some? && y.value.Arr?)
            && (x.Some? && x.value.Arr? ==>
                  var p, q := Verdicts(c, x.value, v, fuel), Verdicts(d, y.value, v, fuel);
                  Verdict(m, false !in p, false !in q) && Verdict(m, true in p, true in q))
    decreases fuel, a, 1
  {
    Parts(m, a, b, k, key);
    var x, y := Member(a, key), Member(b, key);
    if x.Some? && x.value.Arr? {
      VerdictsRelated(m, c, d, x.value, y.value, k, v, fuel);
      CombinedRelated(m, Verdicts(c, x.value, v, fuel), Verdicts(d, y.value, v, fuel));
    }
  }

  /** Under `oneOf` the verdicts stay in either claim. */
  lemma OneOfRelated(m: Claim, c: Context, d: Context, a: Json, b: Json, k: Constraint, v: Json, fuel: nat)
    requires Documents(m, c, d, k) && a.Obj? && b.Obj? && Related(m, a, b, k) && Admissible(m, k, v)
    ensures OneOf(c, a, v, fuel) == OneOf(d, b, v, fuel)
    decreases fuel, a, 1
  {
    Parts(m, a, b, k, "oneOf");
    var x, y := Member(a, "oneOf"), Member(b, "oneOf");
    if x.Some? && x.value.Arr? {
      if m.Same? {
        VerdictsRelated(m, c, d, x.value, y.value, k, v, fuel);
        CombinedRelated(m, Verdicts(c, x.value, v, fuel), Verdicts(d, y.value, v, fuel));
      } else {
        forall i | 0 <= i < |x.value.items|
          ensures Valid(c, x.value.items[i], v, fuel) == Valid(d, x.value.items[i], v, fuel)
        {
          PlainAnywhere(c, d, x.value.items[i], v, fuel);
        }
        assert Verdicts(c, x.value, v, fuel) == Verdicts(d, y.value, v, fuel);
      }
    }
  }

  lemma CombinesRelated(m: Claim, c: Context, d: Context, a: Json, b: Json, k: Constraint, v: Json, fuel: nat)
    requires Documents(m, c, d, k) && a.Obj? && b.Obj? && Related(m, a, b, k) && Admissible(m, k, v)
    ensures Verdict(m, Combines(c, a, v, fuel), Combines(d, b, v, fuel))
    decreases fuel, a, 2
  {
    ListKeywordRelated(m, c, d, a, b, k, "allOf", v, fuel);
    ListKeywordRelated(m, c, d, a, b, k, "anyOf", v, fuel);
    OneOfRelated(m, c, d, a, b, k, v, fuel);
    HoldsRelated(m, c, d, a, b, k, "not", v, fuel);
    HoldsRelated(m, c, d, a, b, k, "if", v, fuel);
    HoldsRelated(m, c, d, a, b, k, "then", v, fuel);
    HoldsRelated(m, c, d, a, b, k, "else", v, fuel);
    assert Holds(c, a, "not", v, fuel) == Holds(d, b, "not", v, fuel);
    assert Holds(c, a, "if", v, fuel) == Holds(d, b, "if", v, fuel);
    assert Verdict(m, AllOf(c, a, v, fuel), AllOf(d, b, v, fuel));
    assert Verdict(m, AnyOf(c, a, v, fuel), AnyOf(d, b, v, fuel));
  }

  // ---- Arrays --------------------------------------------------------------------------------

  /** The two forms of `items` and `prefixItems`: one list or none, related place by place. */
  lemma TupleRelated(m: Claim, a: Json, b: Json, k: Constraint, key: string, i: nat)
    requires a.Obj? && b.Obj? && Related(m, a, b, k) && (key == "items" || key == "prefixItems")
    ensures var x, y := Member(a, key), Member(b, key);
            && (x.Some? && x.value.Arr? <==> y.Some? && y.value.Arr?)
            && (x.Some? && x.value.Arr? ==>
                  && |x.value.items| == |y.value.items|
                  && (i < |x.value.items| ==> Related(m, x.value.items[i], y.value.items[i], k)))
  {
    Parts(m, a, b, k, key);
  }

  lemma ElementRelated(
    m: Claim, c: Context, d: Context, a: Json, b: Json, k: Constraint, i: nat, item: Json, fuel: nat)
    requires Documents(m, c, d, k) && a.Obj? && b.Obj? && Related(m, a, b, k) && Admissible(m, k, item)
    ensures Verdict(m, ElementOk(c, a, i, item, fuel), ElementOk(d, b, i, item, fuel))
    decreases fuel, a, 1
  {
    hide Holds, Admissible, Related;
    var key := if c.dialect.Draft7? then "items" else "prefixItems";
    TupleRelated(m, a, b, k, key, i);
    var x, y := Member(a, key), Member(b, key);
    HoldsRelated(m, c, d, a, b, k, "items", item, fuel);
    HoldsRelated(m, c, d, a, b, k, "additionalItems", item, fuel);
    if x.Some? && x.value.Arr? && i < |x.value.items| {
      ValidRelated(m, c, d, x.value.items[i], y.value.items[i], k, item, fuel);
    }
  }

  lemma ContainedRelated(
    m: Claim, c: Context, d: Context, a: Json, b: Json, k: Constraint, items: seq<Json>, n: nat, fuel: nat)
    requires Documents(m, c, d, k) && a.Obj? && b.Obj? && Related(m, a, b, k) && n <= |items|
    requires forall i :: 0 <= i < |items| ==> Admissible(m, k, items[i])
    ensures Contained(d, b, items, n, fuel) <= Contained(c, a, items, n, fuel)
    ensures m.Same? ==> Contained(d, b, items, n, fuel) == Contained(c, a, items, n, fuel)
    decreases fuel, a, 1, n
  {
    if n > 0 {
      ContainedRelated(m, c, d, a, b, k, items, n - 1, fuel);
      HoldsRelated(m, c, d, a, b, k, "contains", items[n - 1], fuel);
    }
  }

  /** Fewer matches fail a lower bound only, and under `Stricter` there is no upper one. */
  lemma BoundsRelated(m: Claim, c: Context, d: Context, a: Json, b: Json, k: Constraint, before: nat, after: nat)
    requires Documents(m, c, d, k) && a.Obj? && b.Obj? && Related(m, a, b, k)
    requires after <= before && (m.Same? ==> after == before)
    ensures Verdict(m, ContainsOk(c, a, before), ContainsOk(d, b, after))
  {
    Parts(m, a, b, k, "minContains");
    Parts(m, a, b, k, "maxContains");
  }

  lemma ElementsRelated(
    m: Claim, c: Context, d: Context, a: Json, b: Json, k: Constraint, items: seq<Json>, fuel: nat)
    requires Documents(m, c, d, k) && a.Obj? && b.Obj? && Related(m, a, b, k)
    requires forall i :: 0 <= i < |items| ==> Admissible(m, k, items[i])
    ensures Verdict(m, Elements(c, a, items, fuel), Elements(d, b, items, fuel))
    decreases fuel, a, 2
  {
    forall i | 0 <= i < |items|
      ensures Verdict(m, ElementOk(c, a, i, items[i], fuel), ElementOk(d, b, i, items[i], fuel))
    {
      ElementRelated(m, c, d, a, b, k, i, items[i], fuel);
    }
    Parts(m, a, b, k, "contains");
    ContainedRelated(m, c, d, a, b, k, items, |items|, fuel);
    BoundsRelated(m, c, d, a, b, k, Contained(c, a, items, |items|, fuel), Contained(d, b, items, |items|, fuel));
  }

  // ---- Objects -------------------------------------------------------------------------------

  lemma NamedHolds(
    m: Claim, c: Context, d: Context, x: Json, y: Json, k: Constraint, name: string, v: Json, fuel: nat)
    requires Documents(m, c, d, k) && x.Obj? && y.Obj? && NamedRelated(m, x, y, k) && Admissible(m, k, v)
    ensures Has(x.fields, name) == Has(y.fields, name)
    ensures Verdict(m, Holds(c, x, name, v, fuel), Holds(d, y, name, v, fuel))
    decreases fuel, x, 9
  {
    NameAt(m, x, y, k, name);
    if Has(x.fields, name) {
      ValidRelated(m, c, d, Member(x, name).value, Member(y, name).value, k, v, fuel);
    }
  }

  lemma PatternsRelated(m: Claim, c: Context, d: Context, a: Json, b: Json, k: Constraint, f: Field, fuel: nat)
    requires Documents(m, c, d, k) && a.Obj? && b.Obj? && Related(m, a, b, k) && Admissible(m, k, f.value)
    ensures PatternHit(c, a, f.key) == PatternHit(d, b, f.key)
    ensures Verdict(m, PatternsOk(c, a, f, fuel), PatternsOk(d, b, f, fuel))
    decreases fuel, a, 0
  {
    Parts(m, a, b, k, "patternProperties");
    var x, y := Member(a, "patternProperties"), Member(b, "patternProperties");
    if x.Some? && x.value.Obj? {
      forall p
        ensures Has(x.value.fields, p) == Has(y.value.fields, p)
        ensures Verdict(m, Holds(c, x.value, p, f.value, fuel), Holds(d, y.value, p, f.value, fuel))
      {
        NamedHolds(m, c, d, x.value, y.value, k, p, f.value, fuel);
      }
    }
  }

  lemma MemberRelated(m: Claim, c: Context, d: Context, a: Json, b: Json, k: Constraint, f: Field, fuel: nat)
    requires Documents(m, c, d, k) && a.Obj? && b.Obj? && Related(m, a, b, k) && Admissible(m, k, f.value)
    ensures Verdict(m, MemberOk(c, a, f, fuel), MemberOk(d, b, f, fuel))
    decreases fuel, a, 1
  {
    hide PatternHit, PatternsOk;
    Parts(m, a, b, k, "properties");
    var x, y := Member(a, "properties"), Member(b, "properties");
    HoldsRelated(m, c, d, a, b, k, "additionalProperties", f.value, fuel);
    PatternsRelated(m, c, d, a, b, k, f, fuel);
    if x.Some? && x.value.Obj? {
      NamedHolds(m, c, d, x.value, y.value, k, f.key, f.value, fuel);
    }
  }

  lemma MembersRelated(
    m: Claim, c: Context, d: Context, a: Json, b: Json, k: Constraint, members: seq<Field>, fuel: nat)
    requires Documents(m, c, d, k) && a.Obj? && b.Obj? && Related(m, a, b, k)
    requires forall i :: 0 <= i < |members| ==> Admissible(m, k, members[i].value)
    ensures Verdict(m, Members(c, a, members, fuel), Members(d, b, members, fuel))
    decreases fuel, a, 2
  {
    forall i | 0 <= i < |members|
      ensures Verdict(m, MemberOk(c, a, members[i], fuel), MemberOk(d, b, members[i], fuel))
      ensures Verdict(m, Holds(c, a, "propertyNames", Str(members[i].key), fuel),
                      Holds(d, b, "propertyNames", Str(members[i].key), fuel))
    {
      MemberRelated(m, c, d, a, b, k, members[i], fuel);
      HoldsRelated(m, c, d, a, b, k, "propertyNames", Str(members[i].key), fuel);
    }
  }

  lemma DependencyRelated(
    m: Claim, c: Context, d: Context, a: Json, b: Json, k: Constraint, name: string, v: Json, fuel: nat)
    requires Documents(m, c, d, k) && a.Obj? && b.Obj? && Related(m, a, b, k) && Admissible(m, k, v) && v.Obj?
    ensures Verdict(m, DependencyOk(c, a, name, v, fuel), DependencyOk(d, b, name, v, fuel))
    decreases fuel, a, 1
  {
    var key := if c.dialect.Draft7? then "dependencies" else "dependentSchemas";
    Parts(m, a, b, k, key);
    Parts(m, a, b, k, "dependentRequired");
    var x, y := Member(a, key), Member(b, key);
    if x.Some? && x.value.Obj? {
      NamedHolds(m, c, d, x.value, y.value, k, name, v, fuel);
      NameAt(m, x.value, y.value, k, name);
    }
  }

  lemma DependsRelated(m: Claim, c: Context, d: Context, a: Json, b: Json, k: Constraint, v: Json, fuel: nat)
    requires Documents(m, c, d, k) && a.Obj? && b.Obj? && Related(m, a, b, k) && Admissible(m, k, v) && v.Obj?
    ensures Verdict(m, Depends(c, a, v, fuel), Depends(d, b, v, fuel))
    decreases fuel, a, 2
  {
    forall i | 0 <= i < |v.fields|
      ensures Verdict(m, DependencyOk(c, a, v.fields[i].key, v, fuel), DependencyOk(d, b, v.fields[i].key, v, fuel))
    {
      DependencyRelated(m, c, d, a, b, k, v.fields[i].key, v, fuel);
    }
  }

  // ---- Whole schemas -------------------------------------------------------------------------

  lemma AssertsRelated(m: Claim, c: Context, d: Context, a: Json, b: Json, k: Constraint, v: Json, fuel: nat)
    requires Documents(m, c, d, k) && a.Obj? && b.Obj? && Related(m, a, b, k) && Admissible(m, k, v)
    ensures Verdict(m, Asserts(c, a, v, fuel), Asserts(d, b, v, fuel))
    decreases fuel, a, 3
  {
    PlainRelated(m, a, b, k, c, d, v);
    CombinesRelated(m, c, d, a, b, k, v, fuel);
    if v.Arr? {
      ElementsRelated(m, c, d, a, b, k, v.items, fuel);
    }
    if v.Obj? {
      forall i | 0 <= i < |v.fields|
        ensures Admissible(m, k, v.fields[i].value)
      {
        assert v.fields[i] < v;
      }
      MembersRelated(m, c, d, a, b, k, v.fields, fuel);
      DependsRelated(m, c, d, a, b, k, v, fuel);
    }
  }

  /** A local reference leads to related schemas in the two documents, or nowhere in both. */
  lemma ResolveRelated(m: Claim, c: Context, d: Context, k: Constraint, r: string)
    requires Documents(m, c, d, k) && Local(r)
    ensures Resolve(c, r).Some? <==> Resolve(d, r).Some?
    ensures Resolve(c, r).Some? ==> Related(m, Resolve(c, r).value, Resolve(d, r).value, k)
  {
    if r != "#" {
      var key := if IsDefinition(r, "definitions") then "definitions" else "$defs";
      var prefix := "#/" + key + "/";
      var name := r[|prefix|..];
      assert r == prefix + name;
      ResolveDefinition(c, key, name);
      ResolveDefinition(d, key, name);
      DefinitionRelated(m, c.root, d.root, k, key, Unescape(name));
    }
  }

  lemma DefinitionRelated(m: Claim, a: Json, b: Json, k: Constraint, key: string, name: string)
    requires Related(m, a, b, k) && (key == "definitions" || key == "$defs")
    ensures Definition(a, key, name).Some? <==> Definition(b, key, name).Some?
    ensures Definition(a, key, name).Some? ==> Related(m, Definition(a, key, name).value, Definition(b, key, name).value, k)
  {
    if a.Obj? {
      Parts(m, a, b, k, key);
      var x, y := Member(a, key), Member(b, key);
      if x.Some? {
        NameAt(m, x.value, y.value, k, name);
      }
    }
  }

  /**
   * With references read in the document that holds them, before and after: a value no part of which the primitive
   * admits keeps its verdict; and under the stricter claim's conditions nothing is accepted that was not.
   */
  lemma ValidRelated(m: Claim, c: Context, d: Context, a: Json, b: Json, k: Constraint, v: Json, fuel: nat)
    requires Documents(m, c, d, k) && Related(m, a, b, k) && Admissible(m, k, v)
    ensures Verdict(m, Valid(c, a, v, fuel), Valid(d, b, v, fuel))
    decreases fuel, a, 4
  {
    if a.Obj? {
      Parts(m, a, b, k, "$ref");
      AssertsRelated(m, c, d, a, b, k, v, fuel);
      if IsReference(a) {
        var r := Get(a.fields, "$ref").value.s;
        ResolveRelated(m, c, d, k, r);
        ValidReference(c, a, r, Resolve(c, r), v, fuel);
        ValidReference(d, b, r, Resolve(d, r), v, fuel);
        if fuel > 0 && Resolve(c, r).Some? {
          ValidRelated(m, c, d, Resolve(c, r).value, Resolve(d, r).value, k, v, fuel - 1);
        }
      } else {
        ValidWithoutReference(c, a, v, fuel);
        ValidWithoutReference(d, b, v, fuel);
      }
    }
  }

  // ---- The constraint in place ---------------------------------------------------------------

  /**
   * Where the stricter claim lets the constraint go: it loosens no keyword, and reaches no branch of a `oneOf`, which
   * could count a rejection as a gain.
   */
  ghost predicate Narrowable(s: Json, k: Constraint)
    requires s.Obj?
    decreases s, 1
  {
    && (Names(s.fields, k.Primitive()) ==> NotLoosened(Get(s.fields, k.Keyword()), k))
    && NoBranchNames(s, k)
    && NarrowableList(s, "anyOf", k)
    && NarrowableList(s, "allOf", k)
  }

  predicate NoBranchNames(s: Json, k: Constraint)
    requires s.Obj?
  {
    var list := Member(s, "oneOf");
    list.Some? && list.value.Arr? ==>
      forall i :: 0 <= i < |list.value.items| && list.value.items[i].Obj? ==>
        !Names(list.value.items[i].fields, k.Primitive())
  }

  ghost predicate NarrowableList(s: Json, key: string, k: Constraint)
    requires s.Obj?
    decreases s, 0
  {
    var list := Member(s, key);
    list.Some? && list.value.Arr? ==>
      forall i :: 0 <= i < |list.value.items| && list.value.items[i].Obj? ==> Narrowable(list.value.items[i], k)
  }

  ghost predicate Allowed(m: Claim, s: Json, k: Constraint) {
    m.Stricter? && s.Obj? ==> Narrowable(s, k)
  }

  lemma PlainUntouched(s: Json, k: Constraint)
    requires s.Obj? && Plain(s) && !Names(s.fields, k.Primitive())
    ensures Constrain(s, k) == s
  {
    forall key | key in Lists
      ensures !Has(s.fields, key)
    {
      Finds(s.fields, |s.fields|, key);
    }
    assert "anyOf" in Lists && "oneOf" in Lists && "allOf" in Lists;
    NoLists(s, k);
  }

  lemma ConstrainedNode(m: Claim, s: Json, k: Constraint)
    requires s.Obj? && Allowed(m, s, k)
    ensures Kept(s, Constrain(s, k), k) || Assigned(m, s, Constrain(s, k), k)
  {
    ConstrainedMember(s, k, "type");
    ConstrainedMember(s, k, k.Keyword());
    AssignedMember(s.fields, k, "type");
    AssignedMember(s.fields, k, k.Keyword());
  }

  lemma ConstrainedItems(m: Claim, x: Json, k: Constraint)
    requires x.Arr? && ListRelated(m, x, x, k)
    requires forall i :: 0 <= i < |x.items| ==> Allowed(m, x.items[i], k)
    ensures ListRelated(m, x, ConstrainAll(x, k), k)
    decreases x, 5
  {
    forall i | 0 <= i < |x.items|
      ensures Related(m, x.items[i], ConstrainAll(x, k).items[i], k)
    {
      if x.items[i].Obj? {
        ConstrainRelated(m, x.items[i], k);
      }
    }
  }

  lemma ConstrainedBranches(s: Json, k: Constraint)
    requires s.Obj? && NoBranchNames(s, k) && Has(s.fields, "oneOf")
    requires Member(s, "oneOf").value.Arr? && PlainPart(Member(s, "oneOf").value)
    ensures ConstrainAll(Member(s, "oneOf").value, k) == Member(s, "oneOf").value
  {
    var x := Member(s, "oneOf").value;
    forall i | 0 <= i < |x.items|
      ensures ConstrainAll(x, k).items[i] == x.items[i]
    {
      if x.items[i].Obj? {
        PlainUntouched(x.items[i], k);
      }
    }
    assert ConstrainAll(x, k).items == x.items;
  }

  lemma ConstrainedKey(m: Claim, s: Json, k: Constraint, key: string)
    requires s.Obj? && Related(m, s, s, k) && Allowed(m, s, k)
    ensures KeyRelated(m, s, Constrain(s, k), key, k)
    decreases s, 1
  {
    if key != "type" && key != k.Keyword() {
      ConstrainedMember(s, k, key);
      AssignedMember(s.fields, k, key);
      Parts(m, s, s, k, key);
      var x := Member(s, key);
      if key in Lists && x.Some? && x.value.Arr? {
        if m.Stricter? && key == "oneOf" {
          ConstrainedBranches(s, k);
        } else {
          assert m.Stricter? ==> NarrowableList(s, key, k);
          ConstrainedItems(m, x.value, k);
        }
      }
    }
  }

  /** Constraining a schema fit for the claim is one way to be related to it. */
  lemma ConstrainRelated(m: Claim, s: Json, k: Constraint)
    requires s.Obj? && Related(m, s, s, k) && Allowed(m, s, k)
    ensures Related(m, s, Constrain(s, k), k)
    decreases s, 2
  {
    ConstrainedNode(m, s, k);
    forall key
      ensures KeyRelated(m, s, Constrain(s, k), key, k)
    {
      ConstrainedKey(m, s, k, key);
    }
  }

  /** From a schema to one inside it. */
  datatype Step = Part(key: string) | Item(key: string, i: nat) | Named(key: string, name: string)

  function Next(s: Json, step: Step): (r: Option<Json>) {
    if !s.Obj? then None
    else
      match step
      case Part(key) =>
        var part := Get(s.fields, key);
        if part.Some? && !part.value.Arr? && (key in PartKeywords || key == "items") then part else None
      case Item(key, i) => (
        match Get(s.fields, key)
        case Some(Arr(items)) => if i < |items| && (key in ListKeywords || key == "items") then Some(items[i]) else None
        case _ => None)
      case Named(key, name) => (
        match Get(s.fields, key)
        case Some(Obj(entries)) => if key in NamedKeywords then Get(entries, name) else None
        case _ => None)
  }

  /** What stands under the step's keyword once `y` takes the schema's place. */
  function ReplacedAt(s: Json, step: Step, y: Json): Json
    requires Next(s, step).Some?
  {
    match step
    case Part(_) => y
    case Item(key, i) => Arr(Get(s.fields, key).value.items[i := y])
    case Named(key, name) => Obj(Put(Get(s.fields, key).value.fields, name, y))
  }

  function Replaced(s: Json, step: Step, y: Json): Json
    requires Next(s, step).Some?
  {
    Obj(Put(s.fields, step.key, ReplacedAt(s, step, y)))
  }

  /** The document after `constrain` was called on the schema at the end of the path. */
  function ConstrainAt(s: Json, path: seq<Step>, k: Constraint): Json
    decreases |path|
  {
    if path == [] then ConstrainPart(s, k)
    else
      var x := Next(s, path[0]);
      if x.None? then s else Replaced(s, path[0], ConstrainAt(x.value, path[1..], k))
  }

  /** The path runs through no frozen part and ends where the claim allows the constraint. */
  ghost predicate Open(m: Claim, s: Json, path: seq<Step>, k: Constraint)
    decreases |path|
  {
    if path == [] then Allowed(m, s, k)
    else !Frozen(m, k, path[0].key) && (Next(s, path[0]).Some? ==> Open(m, Next(s, path[0]).value, path[1..], k))
  }

  lemma ReplacedPart(m: Claim, s: Json, step: Step, y: Json, k: Constraint)
    requires Next(s, step).Some? && Related(m, s, s, k) && !Frozen(m, k, step.key)
    requires Related(m, Next(s, step).value, y, k)
    ensures PartRelated(m, step.key, Get(s.fields, step.key).value, ReplacedAt(s, step, y), k)
  {
    Parts(m, s, s, k, step.key);
    hide Related, Frozen, PartRelated;
    var x := Get(s.fields, step.key).value;
    match step
    case Part(key) => OneReplaced(m, key, x, y, k);
    case Item(key, i) => ItemReplaced(m, key, x, i, y, k);
    case Named(key, name) => NameReplaced(m, key, x, name, y, k);
  }

  lemma OneReplaced(m: Claim, key: string, x: Json, y: Json, k: Constraint)
    requires !x.Arr? && (key in PartKeywords || key == "items") && !Frozen(m, k, key) && Related(m, x, y, k)
    ensures PartRelated(m, key, x, y, k)
  {
    hide Related, Frozen;
  }

  lemma ItemReplaced(m: Claim, key: string, x: Json, i: nat, y: Json, k: Constraint)
    requires x.Arr? && i < |x.items| && (key in ListKeywords || key == "items") && !Frozen(m, k, key)
    requires PartRelated(m, key, x, x, k) && Related(m, x.items[i], y, k)
    ensures PartRelated(m, key, x, Arr(x.items[i := y]), k)
  {
    hide Related, Frozen, ListRelated;
    assert ListRelated(m, x, x, k);
    ReplacedItem(m, x, i, y, k);
  }

  lemma NameReplaced(m: Claim, key: string, x: Json, name: string, y: Json, k: Constraint)
    requires x.Obj? && Has(x.fields, name) && key in NamedKeywords && !Frozen(m, k, key)
    requires PartRelated(m, key, x, x, k) && Related(m, Get(x.fields, name).value, y, k)
    ensures PartRelated(m, key, x, Obj(Put(x.fields, name, y)), k)
  {
    hide Related, Frozen, NamedRelated;
    assert NamedRelated(m, x, x, k);
    ReplacedName(m, x, name, y, k);
  }

  lemma ReplacedItem(m: Claim, x: Json, i: nat, y: Json, k: Constraint)
    requires x.Arr? && i < |x.items| && ListRelated(m, x, x, k) && Related(m, x.items[i], y, k)
    ensures ListRelated(m, x, Arr(x.items[i := y]), k)
  {
  }

  lemma ReplacedName(m: Claim, x: Json, name: string, y: Json, k: Constraint)
    requires x.Obj? && Has(x.fields, name) && NamedRelated(m, x, x, k) && Related(m, Get(x.fields, name).value, y, k)
    ensures NamedRelated(m, x, Obj(Put(x.fields, name, y)), k)
  {
    forall other
      ensures NameRelated(m, x, Obj(Put(x.fields, name, y)), other, k)
    {
      GetPut(x.fields, name, y, other);
      NameAt(m, x, x, k, other);
    }
  }

  lemma ReplacedGet(s: Json, step: Step, y: Json, key: string)
    requires Next(s, step).Some?
    ensures Replaced(s, step, y).Obj?
    ensures Get(Replaced(s, step, y).fields, key) == if key == step.key then Some(ReplacedAt(s, step, y)) else Get(s.fields, key)
  {
    GetPut(s.fields, step.key, ReplacedAt(s, step, y), key);
  }

  lemma ReplacedKept(s: Json, step: Step, y: Json, k: Constraint)
    requires Next(s, step).Some?
    ensures Replaced(s, step, y).Obj? && Kept(s, Replaced(s, step, y), k)
  {
    ReplacedGet(s, step, y, "type");
    ReplacedGet(s, step, y, k.Keyword());
    hide Replaced, ReplacedAt;
  }

  lemma ReplacedKey(m: Claim, s: Json, step: Step, y: Json, key: string, k: Constraint)
    requires Next(s, step).Some? && Related(m, s, s, k) && !Frozen(m, k, step.key)
    requires Related(m, Next(s, step).value, y, k)
    ensures Replaced(s, step, y).Obj? && KeyRelated(m, s, Replaced(s, step, y), key, k)
  {
    hide Replaced, ReplacedAt, Next, Related, Frozen, PartRelated;
    NextHas(s, step);
    ReplacedGet(s, step, y, key);
    if key != "type" && key != k.Keyword() {
      Parts(m, s, s, k, key);
      if key == step.key {
        ReplacedPart(m, s, step, y, k);
      }
    }
  }

  lemma NextHas(s: Json, step: Step)
    requires Next(s, step).Some?
    ensures s.Obj? && Has(s.fields, step.key)
  {
  }

  lemma ReplacedRelated(m: Claim, s: Json, step: Step, y: Json, k: Constraint)
    requires Next(s, step).Some? && Related(m, s, s, k) && !Frozen(m, k, step.key)
    requires Related(m, Next(s, step).value, y, k)
    ensures Related(m, s, Replaced(s, step, y), k)
  {
    hide KeyRelated, Replaced, Next, Kept, Assigned, Frozen;
    NextHas(s, step);
    ReplacedKept(s, step, y, k);
    forall key
      ensures KeyRelated(m, s, Replaced(s, step, y), key, k)
    {
      ReplacedKey(m, s, step, y, key, k);
    }
  }

  lemma {:induction false} ConstrainAtRelated(m: Claim, s: Json, path: seq<Step>, k: Constraint)
    requires Related(m, s, s, k) && Open(m, s, path, k)
    ensures Related(m, s, ConstrainAt(s, path, k), k)
    decreases |path|
  {
    if path == [] {
      if s.Obj? {
        ConstrainRelated(m, s, k);
      }
    } else if Next(s, path[0]).Some? {
      NextRelated(m, s, path[0], k);
      var x := Next(s, path[0]).value;
      ConstrainAtRelated(m, x, path[1..], k);
      ReplacedRelated(m, s, path[0], ConstrainAt(x, path[1..], k), k);
    }
  }

  lemma NextRelated(m: Claim, s: Json, step: Step, k: Constraint)
    requires Next(s, step).Some? && Related(m, s, s, k) && !Frozen(m, k, step.key)
    ensures Related(m, Next(s, step).value, Next(s, step).value, k)
  {
    Parts(m, s, s, k, step.key);
    if step.Named? {
      NameAt(m, Get(s.fields, step.key).value, Get(s.fields, step.key).value, k, step.name);
    }
  }

  // ---- One call after another ----------------------------------------------------------------

  lemma PlainStill(m: Claim, x: Json, y: Json, k: Constraint)
    requires Related(m, x, y, k) && Plain(x)
    ensures Plain(y)
  {
    if x.Obj? {
      forall i | 0 <= i < |y.fields|
        ensures IsPlain(y.fields[i].key)
      {
        var key := y.fields[i].key;
        Finds(y.fields, |y.fields|, key);
        if key != "type" && key != k.Keyword() {
          Parts(m, x, y, k, key);
          Finds(x.fields, |x.fields|, key);
        }
      }
    }
  }

  lemma SameKind(m: Claim, x: Json, y: Json, k: Constraint)
    ensures Related(m, x, y, k) ==> (x.Arr? <==> y.Arr?)
    ensures ListRelated(m, x, y, k) && !x.Arr? ==> x == y
    ensures NamedRelated(m, x, y, k) && !x.Obj? ==> x == y
  {
  }

  lemma FrozenStill(m: Claim, key: string, x: Json, y: Json, k: Constraint, j: Constraint)
    requires PartRelated(m, key, x, y, k) && PartRelated(m, key, x, x, j) && Frozen(m, j, key)
    ensures PartRelated(m, key, y, y, j)
  {
    if !Frozen(m, k, key) {
      PlainStill(m, x, y, k);
    }
  }

  lemma PartStill(m: Claim, key: string, x: Json, y: Json, k: Constraint, j: Constraint)
    requires PartRelated(m, key, x, y, k) && PartRelated(m, key, x, x, j)
    ensures PartRelated(m, key, y, y, j)
    decreases x, 4
  {
    hide Related, ListRelated, NamedRelated, Frozen;
    if Frozen(m, j, key) {
      FrozenStill(m, key, x, y, k, j);
    } else if !Frozen(m, k, key) {
      SameKind(m, x, y, k);
      if key in PartKeywords || (key == "items" && !x.Arr?) {
        StillFit(m, x, y, k, j);
      } else if key in ListKeywords || key == "items" {
        if x.Arr? {
          ItemsStill(m, x, y, k, j);
        }
      } else if key in NamedKeywords && x.Obj? {
        NamesStill(m, x, y, k, j);
      }
    }
  }

  lemma ItemsStill(m: Claim, x: Json, y: Json, k: Constraint, j: Constraint)
    requires x.Arr? && ListRelated(m, x, y, k) && ListRelated(m, x, x, j)
    ensures y.Arr? && ListRelated(m, y, y, j)
    decreases x, 2
  {
    forall i | 0 <= i < |y.items|
      ensures Related(m, y.items[i], y.items[i], j)
    {
      StillFit(m, x.items[i], y.items[i], k, j);
    }
  }

  lemma NamesStill(m: Claim, x: Json, y: Json, k: Constraint, j: Constraint)
    requires x.Obj? && NamedRelated(m, x, y, k) && NamedRelated(m, x, x, j)
    ensures y.Obj? && NamedRelated(m, y, y, j)
    decreases x, 2
  {
    forall name
      ensures NameRelated(m, y, y, name, j)
    {
      NameAt(m, x, y, k, name);
      NameAt(m, x, x, j, name);
      if Has(x.fields, name) {
        StillFit(m, Member(x, name).value, Member(y, name).value, k, j);
      }
    }
  }

  /** A constraint leaves a document fit for the next one. */
  lemma StillFit(m: Claim, a: Json, b: Json, k: Constraint, j: Constraint)
    requires Related(m, a, b, k) && Related(m, a, a, j)
    ensures Related(m, b, b, j)
    decreases a, 3
  {
    if a.Obj? {
      Parts(m, a, b, k, "$ref");
      forall key
        ensures KeyRelated(m, b, b, key, j)
      {
        if key != "type" && key != j.Keyword() && key != k.Keyword() {
          Parts(m, a, b, k, key);
          Parts(m, a, a, j, key);
          if Has(a.fields, key) {
            PartStill(m, key, Member(a, key).value, Member(b, key).value, k, j);
          }
        }
      }
    }
  }

  datatype Call = Call(path: seq<Step>, k: Constraint)

  /** The document after the first `n` calls. */
  function Called(root: Json, calls: seq<Call>, n: nat): Json
    requires n <= |calls|
  {
    if n == 0 then root else ConstrainAt(Called(root, calls, n - 1), calls[n - 1].path, calls[n - 1].k)
  }

  ghost predicate AllFit(m: Claim, root: Json, calls: seq<Call>, n: nat)
    requires n <= |calls|
  {
    forall i :: 0 <= i < |calls| ==> Related(m, Called(root, calls, n), Called(root, calls, n), calls[i].k)
  }

  /** Every call is one the claim allows, in the document it finds. */
  ghost predicate AllOpen(m: Claim, root: Json, calls: seq<Call>) {
    forall n :: 0 <= n < |calls| ==> Open(m, Called(root, calls, n), calls[n].path, calls[n].k)
  }

  lemma CallFits(m: Claim, root: Json, calls: seq<Call>, n: nat)
    requires n < |calls| && AllFit(m, root, calls, n) && AllOpen(m, root, calls)
    ensures AllFit(m, root, calls, n + 1)
    ensures Related(m, Called(root, calls, n), Called(root, calls, n + 1), calls[n].k)
  {
    ConstrainAtRelated(m, Called(root, calls, n), calls[n].path, calls[n].k);
    forall i | 0 <= i < |calls|
      ensures Related(m, Called(root, calls, n + 1), Called(root, calls, n + 1), calls[i].k)
    {
      StillFit(m, Called(root, calls, n), Called(root, calls, n + 1), calls[n].k, calls[i].k);
    }
  }

  lemma {:induction false} CallsJudge(m: Claim, c: Context, calls: seq<Call>, n: nat, v: Json, fuel: nat)
    requires n <= |calls| && AllFit(m, c.root, calls, 0) && AllOpen(m, c.root, calls)
    requires forall i :: 0 <= i < |calls| ==> Admissible(m, calls[i].k, v)
    ensures AllFit(m, c.root, calls, n)
    ensures var after := Called(c.root, calls, n);
            Verdict(m, Valid(c, c.root, v, fuel), Valid(c.(root := after), after, v, fuel))
  {
    if n > 0 {
      CallsJudge(m, c, calls, n - 1, v, fuel);
      CallFits(m, c.root, calls, n - 1);
      var before, after := Called(c.root, calls, n - 1), Called(c.root, calls, n);
      ValidRelated(m, c.(root := before), c.(root := after), before, after, calls[n - 1].k, v, fuel);
    }
  }

  /**
   * Calls of `constrain` anywhere in a document whose references are local: a value no part of which their primitives
   * admit keeps its verdict, whatever the nesting of the lists. In particular, what admitted `null` still does.
   */
  lemma OutsideUnchanged(c: Context, calls: seq<Call>, v: Json, fuel: nat)
    requires AllFit(Same, c.root, calls, 0) && AllOpen(Same, c.root, calls)
    requires forall i :: 0 <= i < |calls| ==> Outside(calls[i].k, v)
    ensures var after := Called(c.root, calls, |calls|);
            Valid(c.(root := after), after, v, fuel) == Valid(c, c.root, v, fuel)
  {
    CallsJudge(Same, c, calls, |calls|, v, fuel);
  }

  /**
   * Where what stands under `not`, `if` and `oneOf` is plain and untouched, `contains` has no upper bound, and no
   * keyword is loosened, the calls only ever reject more.
   */
  lemma Narrows(c: Context, calls: seq<Call>, v: Json, fuel: nat)
    requires AllFit(Stricter, c.root, calls, 0) && AllOpen(Stricter, c.root, calls)
    ensures var after := Called(c.root, calls, |calls|);
            Valid(c.(root := after), after, v, fuel) ==> Valid(c, c.root, v, fuel)
  {
    CallsJudge(Stricter, c, calls, |calls|, v, fuel);
  }

  // ---- The conditions are needed -------------------------------------------------------------

  /** The type `number` with a lower bound. */
  function AtLeast(bound: real): Json {
    Obj([Field("type", Str("number")), Field("minimum", Num(bound))])
  }

  lemma AtLeastJudges(c: Context, bound: real, n: real)
    ensures Valid(c, AtLeast(bound), Num(n), 0) <==> bound <= n
  {
    var s := AtLeast(bound);
    PlainSchema(c, s, Num(n), 0);
    GetAt(s.fields, 0);
    GetAt(s.fields, 1);
    assert IsPlain("minimum") && (PlainOk(c.rules, "minimum", Num(bound), Num(n)) <==> bound <= n);
    assert PlainOk(c.rules, "type", Str("number"), Num(n));
    hide PlainOk, IsPlain, Valid, Get;
    forall key | IsPlain(key) && Has(s.fields, key)
      ensures key == "type" || key == "minimum"
    {
      Finds(s.fields, 2, key);
    }
  }

  lemma MinimumOverwritten()
    ensures Constrain(AtLeast(5.0), NonNegative) == AtLeast(0.0)
  {
    var s := AtLeast(5.0);
    GetAt(s.fields, 0);
    GetAt(s.fields, 1);
    assert Replace(s.fields, "minimum", Num(0.0)) == AtLeast(0.0).fields;
    Finds(s.fields, 2, "anyOf");
    Finds(s.fields, 2, "oneOf");
    Finds(s.fields, 2, "allOf");
    NoLists(s, NonNegative);
  }

  /** The source overwrites a `minimum` the schema had: 3 was too small and no longer is. */
  lemma OverwrittenCounterexample(c: Context)
    ensures var s := Obj([Field("type", Str("number")), Field("minimum", Num(5.0))]);
            !Valid(c, s, Num(3.0), 0) && Valid(c, Constrain(s, NonNegative), Num(3.0), 0)
  {
    hide Valid, Constrain;
    MinimumOverwritten();
    AtLeastJudges(c, 5.0, 3.0);
    AtLeastJudges(c, 0.0, 3.0);
  }

  lemma NoLists(s: Json, k: Constraint)
    requires s.Obj? && !Has(s.fields, "anyOf") && !Has(s.fields, "oneOf") && !Has(s.fields, "allOf")
    ensures Constrain(s, k) == Obj(Assign(s.fields, k))
  {
  }

  const NUMBER := Obj([Field("type", Str("number"))])

  function Either(part: Json): Json {
    Obj([Field("oneOf", Arr([part, Bool(true)]))])
  }

  lemma NumberTightened()
    ensures Constrain(NUMBER, NonNegative) == AtLeast(0.0)
  {
    GetAt(NUMBER.fields, 0);
    Finds(NUMBER.fields, 1, "minimum");
    Finds(NUMBER.fields, 1, "anyOf");
    Finds(NUMBER.fields, 1, "oneOf");
    Finds(NUMBER.fields, 1, "allOf");
    NoLists(NUMBER, NonNegative);
  }

  lemma NumberJudges(c: Context, n: real)
    ensures Valid(c, NUMBER, Num(n), 0)
  {
    PlainSchema(c, NUMBER, Num(n), 0);
    GetAt(NUMBER.fields, 0);
    assert PlainOk(c.rules, "type", Str("number"), Num(n));
    hide PlainOk, IsPlain, Valid, Get;
    forall key | IsPlain(key) && Has(NUMBER.fields, key)
      ensures key == "type"
    {
      Finds(NUMBER.fields, 1, key);
    }
  }

  lemma BranchTightened()
    ensures Constrain(Either(NUMBER), NonNegative) == Either(AtLeast(0.0))
  {
    var s, parts := Either(NUMBER), Arr([NUMBER, Bool(true)]);
    NumberTightened();
    assert ConstrainAll(parts, NonNegative) == Arr([AtLeast(0.0), Bool(true)]);
    hide ConstrainAll;
    GetAt(s.fields, 0);
    Finds(s.fields, 1, "anyOf");
    Finds(s.fields, 1, "allOf");
    Finds(s.fields, 1, "type");
  }

  lemma EitherJudges(c: Context, part: Json, v: Json)
    ensures Valid(c, Either(part), v, 0) <==> !Valid(c, part, v, 0)
  {
    var parts := Arr([part, Bool(true)]);
    OneOfSchema(c, parts, v, 0);
    assert Verdicts(c, parts, v, 0) == [Valid(c, part, v, 0), true];
    hide Valid;
  }

  /** Of two branches that both held, one now fails: exactly one is left. */
  lemma OneOfCounterexample(c: Context)
    ensures var s := Obj([Field("oneOf", Arr([Obj([Field("type", Str("number"))]), Bool(true)]))]);
            !Valid(c, s, Num(-1.0), 0) && Valid(c, Constrain(s, NonNegative), Num(-1.0), 0)
  {
    hide Valid, Constrain;
    BranchTightened();
    NumberJudges(c, -1.0);
    AtLeastJudges(c, 0.0, -1.0);
    EitherJudges(c, NUMBER, Num(-1.0));
    EitherJudges(c, AtLeast(0.0), Num(-1.0));
  }

  // A document whose property is judged by the document itself

  function Doc(p: Json, bounded: bool): Json {
    var fields := [Field("type", Arr([Str("object"), Str("number")])), Field("properties", Obj([Field("x", p)]))];
    Obj(if bounded then fields + [Field("minimum", Num(0.0))] else fields)
  }

  const SELF := Obj([Field("$ref", Str("#"))])

  const NEGATIVE := Num(-1.0)

  lemma DocConstrained(p: Json)
    ensures Constrain(Doc(p, false), NonNegative) == Doc(p, true)
    ensures Narrowable(Doc(p, false), NonNegative)
  {
    var s := Doc(p, false);
    assert Distinct(s.fields);
    GetAt(s.fields, 0);
    assert Get(s.fields, "type") == Some(Arr([Str("object"), Str("number")]));
    assert [Str("object"), Str("number")][1] == Str("number");
    forall key | key != "type" && key != "properties"
      ensures Get(s.fields, key).None?
    {
      Finds(s.fields, 2, key);
    }
    NoLists(s, NonNegative);
  }

  /** A schema of plain keywords, `properties`, `not` and `$ref`. */
  lemma SimpleAsserts(c: Context, s: Json, v: Json, fuel: nat)
    requires s.Obj? && forall i :: 0 <= i < |s.fields| ==> (IsPlain(s.fields[i].key) || s.fields[i].key in {"properties", "not", "$ref"})
    ensures Asserts(c, s, v, fuel)
       <==> && PlainKeywordsOk(c, s, v)
            && (Has(s.fields, "not") ==> !Holds(c, s, "not", v, fuel))
            && (v.Obj? ==> forall i :: 0 <= i < |v.fields| ==> MemberOk(c, s, v.fields[i], fuel))
  {
    hide IsPlain, PlainKeywordsOk, MemberOk, Elements, Depends, Get;
    forall key | !IsPlain(key) && key !in {"properties", "not", "$ref"}
      ensures Get(s.fields, key).None?
    {
      Missing(s, key);
    }
    PartsAreNotPlain();
    SimpleCombines(c, s, v, fuel);
    hide Combines;
    if v.Arr? {
      NoElementsConstrained(c, s, v.items, fuel);
    }
    if v.Obj? {
      NothingDepends(c, s, v, fuel);
      forall i | 0 <= i < |v.fields|
        ensures Holds(c, s, "propertyNames", Str(v.fields[i].key), fuel)
      {
      }
    }
  }

  lemma Missing(s: Json, key: string)
    requires s.Obj? && forall i :: 0 <= i < |s.fields| ==> s.fields[i].key != key
    ensures Get(s.fields, key).None?
  {
    Finds(s.fields, |s.fields|, key);
  }

  lemma SelfJudges(c: Context, v: Json, fuel: nat)
    ensures Valid(c, SELF, v, fuel) <==> fuel > 0 && Valid(c, c.root, v, fuel - 1)
  {
    GetAt(SELF.fields, 0);
    SimpleAsserts(c, SELF, v, fuel);
    forall key | key != "$ref"
      ensures Get(SELF.fields, key).None?
    {
      Finds(SELF.fields, 1, key);
    }
    assert !IsPlain("$ref") && Get(SELF.fields, "properties").None? && Get(SELF.fields, "not").None?;
    assert Get(SELF.fields, "additionalProperties").None?;
    assert Get(SELF.fields, "patternProperties").None?;
    ValidReference(c, SELF, "#", Some(c.root), v, fuel);
  }

  lemma NotJudges(c: Context, p: Json, v: Json, fuel: nat)
    ensures Valid(c, Obj([Field("not", p)]), v, fuel) <==> !Valid(c, p, v, fuel)
  {
    var s := Obj([Field("not", p)]);
    GetAt(s.fields, 0);
    SimpleAsserts(c, s, v, fuel);
    forall key | key != "not"
      ensures Get(s.fields, key).None?
    {
      Finds(s.fields, 1, key);
    }
    assert !IsPlain("not") && Get(s.fields, "properties").None? && Get(s.fields, "additionalProperties").None?;
    ValidWithoutReference(c, s, v, fuel);
  }

  lemma DocPlain(c: Context, p: Json, bounded: bool, v: Json)
    requires v == NEGATIVE || v.Obj?
    ensures PlainKeywordsOk(c, Doc(p, bounded), v) <==> v.Obj? || !bounded
  {
    var s := Doc(p, bounded);
    assert Distinct(s.fields);
    GetAt(s.fields, 0);
    if bounded {
      GetAt(s.fields, 2);
    }
    forall key | key != "type" && key != "properties" && (bounded ==> key != "minimum")
      ensures Get(s.fields, key).None?
    {
      Finds(s.fields, |s.fields|, key);
    }
    var types := [Str("object"), Str("number")];
    assert TypeAdmits(if v.Obj? then types[0].s else types[1].s, v);
    assert TypeOk(Arr(types), v);
    assert IsPlain("type") && IsPlain("minimum") && !IsPlain("properties");
    assert PlainOk(c.rules, "minimum", Num(0.0), v) <==> v.Obj?;
  }

  lemma DocAsserts(c: Context, p: Json, bounded: bool, v: Json, fuel: nat)
    requires v == NEGATIVE || v.Obj?
    ensures Valid(c, Doc(p, bounded), v, fuel)
       <==> (v.Obj? || !bounded) && (v.Obj? ==> forall i :: 0 <= i < |v.fields| ==> MemberOk(c, Doc(p, bounded), v.fields[i], fuel))
  {
    var s := Doc(p, bounded);
    assert forall i :: 0 <= i < |s.fields| ==> IsPlain(s.fields[i].key) || s.fields[i].key in {"properties", "not", "$ref"};
    hide IsPlain, PlainKeywordsOk, Asserts, Valid, MemberOk;
    Missing(s, "not");
    Missing(s, "$ref");
    DocPlain(c, p, bounded, v);
    SimpleAsserts(c, s, v, fuel);
    ValidWithoutReference(c, s, v, fuel);
  }

  lemma DocMember(c: Context, p: Json, bounded: bool, fuel: nat)
    ensures MemberOk(c, Doc(p, bounded), Field("x", NEGATIVE), fuel) <==> Valid(c, p, NEGATIVE, fuel)
  {
    var s := Doc(p, bounded);
    hide Valid;
    assert Distinct(s.fields);
    GetAt(s.fields, 1);
    GetAt([Field("x", p)], 0);
    Missing(s, "patternProperties");
  }

  /** The document admits a negative number unless it is bounded, and an object if its property is admitted. */
  lemma DocJudges(c: Context, p: Json, bounded: bool, fuel: nat)
    ensures Valid(c, Doc(p, bounded), NEGATIVE, fuel) <==> !bounded
    ensures Valid(c, Doc(p, bounded), Obj([Field("x", NEGATIVE)]), fuel) <==> Valid(c, p, NEGATIVE, fuel)
  {
    hide Valid, Doc, MemberOk;
    var v := Obj([Field("x", NEGATIVE)]);
    assert v.fields[0] == Field("x", NEGATIVE);
    DocAsserts(c, p, bounded, NEGATIVE, fuel);
    DocAsserts(c, p, bounded, v, fuel);
    DocMember(c, p, bounded, fuel);
  }

  /** A value outside the primitive with a part inside it loses its verdict through a reference. */
  lemma PartCounterexample(c: Context)
    ensures var s, v := Doc(SELF, false), Obj([Field("x", NEGATIVE)]);
            var r := Constrain(s, NonNegative);
            && !TypeAdmits(NonNegative.Primitive(), v)
            && Valid(c.(root := s), s, v, 1) && !Valid(c.(root := r), r, v, 1)
  {
    hide Valid, Constrain, Doc;
    DocConstrained(SELF);
    var before, after := c.(root := Doc(SELF, false)), c.(root := Doc(SELF, true));
    DocJudges(before, SELF, false, 1);
    DocJudges(before, SELF, false, 0);
    DocJudges(after, SELF, true, 1);
    DocJudges(after, SELF, true, 0);
    SelfJudges(before, NEGATIVE, 1);
    SelfJudges(after, NEGATIVE, 1);
  }

  /** A reference under `not` turns a rejection into a gain, with no `oneOf` and nothing loosened. */
  lemma NotCounterexample(c: Context)
    ensures var s, v := Doc(Obj([Field("not", SELF)]), false), Obj([Field("x", NEGATIVE)]);
            var r := Constrain(s, NonNegative);
            && Narrowable(s, NonNegative)
            && !Valid(c.(root := s), s, v, 1) && Valid(c.(root := r), r, v, 1)
  {
    hide Valid, Constrain, Doc;
    var p := Obj([Field("not", SELF)]);
    DocConstrained(p);
    var before, after := c.(root := Doc(p, false)), c.(root := Doc(p, true));
    DocJudges(before, p, false, 1);
    DocJudges(before, p, false, 0);
    DocJudges(after, p, true, 1);
    DocJudges(after, p, true, 0);
    NotJudges(before, SELF, NEGATIVE, 1);
    NotJudges(after, SELF, NEGATIVE, 1);
    SelfJudges(before, NEGATIVE, 1);
    SelfJudges(after, NEGATIVE, 1);
  }
}
