/** The Draft 7 to 2020-12 translation of scripts/public-api/generate.ts. */
module SchemaTranslation {
  import opened JsonValues
  import opened Wrappers

  const OldPrefix := "#/definitions/"
  const NewPrefix := "#/$defs/"

  /** `child.replace(/^#\/definitions\//, "#/$defs/")`. */
  function RewriteRef(r: string): string {
    if OldPrefix <= r then NewPrefix + r[|OldPrefix|..] else r
  }

  /** `result[target] ??= {}` then `result[target][name] = value`. */
  function AssignUnder(result: seq<Field>, target: string, name: string, value: Json): seq<Field> {
    match Get(result, target)
    case Some(Obj(entries)) => Put(result, target, Obj(Put(entries, name, value)))
    case Some(Null) => Put(result, target, Obj([Field(name, value)]))
    case None => Put(result, target, Obj([Field(name, value)]))
    case _ => result
  }

  function DependencyTarget(dependency: Json): string {
    if dependency.Arr? then "dependentRequired" else "dependentSchemas"
  }

  function Translate(v: Json): Json
    decreases v, 1
  {
    match v
    case Arr(items) => Arr(TranslateAll(items))
    case Obj(fields) => Obj(TranslateFields(v, |fields|))
    case _ => v
  }

  function TranslateAll(items: seq<Json>): (r: seq<Json>)
    ensures |r| == |items| && forall i :: 0 <= i < |r| ==> r[i] == Translate(items[i])
    decreases items, 0
  {
    if items == [] then []
    else
      var r := TranslateAll(items[..|items| - 1]);
      var all := r + [Translate(items[|items| - 1])];
      assert forall i :: 0 <= i < |items| - 1 ==> items[..|items| - 1][i] == items[i];
      all
  }

  /** `result` after the loop has gone over the first `n` entries of `v`. */
  function TranslateFields(v: Json, n: nat): seq<Field>
    requires v.Obj? && n <= |v.fields|
    decreases v, 0, n
  {
    if n == 0 then []
    else
      var result := TranslateFields(v, n - 1);
      var key := v.fields[n - 1].key;
      var child := v.fields[n - 1].value;
      assert v.fields[n - 1] < v;
      if key == "$schema" then result
      else if key == "definitions" then Put(result, "$defs", Translate(child))
      else if key == "$ref" && child.Str? then Put(result, "$ref", Str(RewriteRef(child.s)))
      else if key == "items" && child.Arr? then
        Put(Put(result, "prefixItems", Translate(child)), "items", TranslatedRest(v))
      else if key == "additionalItems" then result
      else if key == "dependencies" && child.Obj? then SplitDependencies(result, child, |child.fields|)
      else Put(result, key, Translate(child))
  }

  /** `toDraft2020(value.additionalItems ?? true)`: both `undefined` and `null` fall back. */
  function TranslatedRest(v: Json): Json
    requires v.Obj?
    decreases v, 0, 0
  {
    var rest := Member(v, "additionalItems");
    if rest.Some? && !rest.value.Null? then Translate(rest.value) else Bool(true)
  }

  /** `result` after the first `n` entries of a `dependencies` object. */
  function SplitDependencies(result: seq<Field>, deps: Json, n: nat): seq<Field>
    requires deps.Obj? && n <= |deps.fields|
    decreases deps, 0, n
  {
    if n == 0 then result
    else
      var name := deps.fields[n - 1].key;
      var dependency := deps.fields[n - 1].value;
      assert deps.fields[n - 1] < deps;
      AssignUnder(SplitDependencies(result, deps, n - 1), DependencyTarget(dependency), name, Translate(dependency))
  }

  /** The walk as the source runs it: one loop over the entries, filling `result`. */
  method ToDraft2020(value: Json) returns (r: Json)
    ensures r == Translate(value)
    decreases value
  {
    match value
    case Arr(items) =>
      var mapped: seq<Json> := [];
      for i := 0 to |items|
        invariant mapped == TranslateAll(items)[..i]
      {
        var child := ToDraft2020(items[i]);
        mapped := mapped + [child];
      }
      r := Arr(mapped);
    case Obj(fields) =>
      var result: seq<Field> := [];
      for n := 0 to |fields|
        invariant result == TranslateFields(value, n)
      {
        var key, child := fields[n].key, fields[n].value;
        assert fields[n] < value;
        if key == "$schema" {
        } else if key == "definitions" {
          var translated := ToDraft2020(child);
          result := Put(result, "$defs", translated);
        } else if key == "$ref" && child.Str? {
          result := Put(result, "$ref", Str(RewriteRef(child.s)));
        } else if key == "items" && child.Arr? {
          var prefix := ToDraft2020(child);
          var rest := Member(value, "additionalItems");
          var others := Bool(true);
          if rest.Some? && !rest.value.Null? {
            others := ToDraft2020(rest.value);
          }
          result := Put(Put(result, "prefixItems", prefix), "items", others);
        } else if key == "additionalItems" {
        } else if key == "dependencies" && child.Obj? {
          ghost var before := result;
          for m := 0 to |child.fields|
            invariant result == SplitDependencies(before, child, m)
          {
            var dependency := child.fields[m].value;
            assert child.fields[m] < child;
            var translated := ToDraft2020(dependency);
            result := AssignUnder(result, DependencyTarget(dependency), child.fields[m].key, translated);
          }
        } else {
          var translated := ToDraft2020(child);
          result := Put(result, key, translated);
        }
      }
      r := Obj(result);
    case _ =>
      r := value;
  }

  /** The walk rewrites, moves or drops this entry, whatever the entry means. */
  predicate Touches(key: string, child: Json) {
    || key == "$schema"
    || key == "definitions"
    || key == "additionalItems"
    || (key == "$ref" && child.Str? && OldPrefix <= child.s)
    || (key == "items" && child.Arr?)
    || (key == "dependencies" && child.Obj?)
  }

  predicate NamesPlain(fields: seq<Field>) {
    forall i :: 0 <= i < |fields| ==> !Touches(fields[i].key, fields[i].value)
  }

  /** Distinct keys at every depth. */
  predicate WellFormed(v: Json) {
    match v
    case Arr(items) => forall i :: 0 <= i < |items| ==> WellFormed(items[i])
    case Obj(fields) =>
      && Distinct(fields)
      && forall i :: 0 <= i < |fields| ==> assert fields[i] < v; WellFormed(fields[i].value)
    case _ => true
  }

  /** No entry at any depth is one the walk rewrites. */
  predicate Untouched(v: Json) {
    match v
    case Arr(items) => forall i :: 0 <= i < |items| ==> Untouched(items[i])
    case Obj(fields) =>
      && NamesPlain(fields)
      && forall i :: 0 <= i < |fields| ==> assert fields[i] < v; Untouched(fields[i].value)
    case _ => true
  }

  // ---- What the loop leaves under each key -------------------------------------------------

  /** Keywords of 2020-12 that the walk writes under, so that an entry of its own may meet them. */
  const WrittenKeywords: set<string> := {"$defs", "prefixItems", "dependentRequired", "dependentSchemas"}

  predicate NoneWritten(fields: seq<Field>) {
    forall i :: 0 <= i < |fields| ==> fields[i].key !in WrittenKeywords
  }

  function MapTranslate(v: Option<Json>): Option<Json> {
    if v.Some? then Some(Translate(v.value)) else None
  }

  /** The dependencies of one kind, translated, in order. */
  function Collected(deps: Json, target: string, n: nat): seq<Field>
    requires deps.Obj? && n <= |deps.fields|
  {
    if n == 0 then []
    else
      var rest := Collected(deps, target, n - 1);
      var dependency := deps.fields[n - 1].value;
      if DependencyTarget(dependency) == target
      then rest + [Field(deps.fields[n - 1].key, Translate(dependency))]
      else rest
  }

  /** The value of `key` after `n` entries, said without the loop. */
  function Expected(v: Json, n: nat, key: string): Option<Json>
    requires v.Obj? && n <= |v.fields|
  {
    if key in {"$schema", "definitions", "additionalItems"} then None
    else if key == "$defs" then MapTranslate(Find(v.fields, n, "definitions"))
    else if key == "$ref" then
      match Find(v.fields, n, key)
      case Some(Str(r)) => Some(Str(RewriteRef(r)))
      case other => MapTranslate(other)
    else if key == "prefixItems" then
      match Find(v.fields, n, "items")
      case Some(Arr(items)) => Some(Translate(Arr(items)))
      case _ => None
    else if key == "items" then
      match Find(v.fields, n, "items")
      case Some(Arr(_)) => Some(TranslatedRest(v))
      case other => MapTranslate(other)
    else if key == "dependentRequired" || key == "dependentSchemas" then
      match Find(v.fields, n, "dependencies")
      case Some(Obj(deps)) =>
        Under(Collected(Obj(deps), key, |deps|))
      case _ => None
    else if key == "dependencies" then
      match Find(v.fields, n, key)
      case Some(Obj(_)) => None
      case other => MapTranslate(other)
    else MapTranslate(Find(v.fields, n, key))
  }

  lemma {:induction false} CollectedGet(deps: Json, target: string, n: nat, name: string)
    requires deps.Obj? && n <= |deps.fields| && Distinct(deps.fields)
    ensures var d := Find(deps.fields, n, name);
            Get(Collected(deps, target, n), name)
            == if d.Some? && DependencyTarget(d.value) == target then Some(Translate(d.value)) else None
  {
    if n > 0 {
      var f := deps.fields[n - 1];
      CollectedGet(deps, target, n - 1, name);
      Finds(deps.fields, n - 1, f.key);
      GetLast(Collected(deps, target, n - 1), Field(f.key, Translate(f.value)), name);
    }
  }

  /** What a map of entries looks like under a key that exists only once something is in it. */
  function Under(entries: seq<Field>): Option<Json> {
    if entries == [] then None else Some(Obj(entries))
  }

  lemma AssignUnderGet(result: seq<Field>, target: string, entries: seq<Field>, name: string, value: Json, key: string)
    requires Get(result, target) == Under(entries) && Get(entries, name).None?
    ensures Get(AssignUnder(result, target, name, value), key)
         == if key == target then Some(Obj(entries + [Field(name, value)])) else Get(result, key)
  {
    assert entries == [] ==> [Field(name, value)] == entries + [Field(name, value)];
    GetPut(result, target, Obj(entries + [Field(name, value)]), key);
  }

  lemma NotYetCollected(deps: Json, target: string, n: nat)
    requires deps.Obj? && 0 < n <= |deps.fields| && Distinct(deps.fields)
    ensures Get(Collected(deps, target, n - 1), deps.fields[n - 1].key).None?
  {
    CollectedGet(deps, target, n - 1, deps.fields[n - 1].key);
    Finds(deps.fields, n - 1, deps.fields[n - 1].key);
  }

  lemma {:induction false} SplitDependenciesGet(result: seq<Field>, deps: Json, n: nat, key: string)
    requires deps.Obj? && n <= |deps.fields| && Distinct(deps.fields)
    requires Get(result, "dependentRequired").None? && Get(result, "dependentSchemas").None?
    ensures Get(SplitDependencies(result, deps, n), key)
         == if key == "dependentRequired" || key == "dependentSchemas" then Under(Collected(deps, key, n))
            else Get(result, key)
  {
    hide AssignUnder, Translate, Get, Distinct;
    if n > 0 {
      var f := deps.fields[n - 1];
      var target := DependencyTarget(f.value);
      SplitDependenciesGet(result, deps, n - 1, key);
      SplitDependenciesGet(result, deps, n - 1, target);
      NotYetCollected(deps, target, n);
      AssignUnderGet(SplitDependencies(result, deps, n - 1), target, Collected(deps, target, n - 1),
                     f.key, Translate(f.value), key);
    }
  }

  /** What one iteration assigns to `key`, for every entry but a split `dependencies`. */
  function Effect(v: Json, f: Field, key: string): Option<Json>
    requires v.Obj?
  {
    if f.key == "$schema" || f.key == "additionalItems" || (f.key == "dependencies" && f.value.Obj?) then None
    else if f.key == "definitions" then if key == "$defs" then Some(Translate(f.value)) else None
    else if f.key == "$ref" && f.value.Str? then if key == "$ref" then Some(Str(RewriteRef(f.value.s))) else None
    else if f.key == "items" && f.value.Arr? then
      if key == "items" then Some(TranslatedRest(v))
      else if key == "prefixItems" then Some(Translate(f.value))
      else None
    else if key == f.key then Some(Translate(f.value)) else None
  }

  ghost predicate Readable(v: Json) {
    && v.Obj?
    && Distinct(v.fields)
    && forall i :: 0 <= i < |v.fields| && v.fields[i].key == "dependencies" && v.fields[i].value.Obj?
         ==> Distinct(v.fields[i].value.fields)
  }

  lemma StepGet(v: Json, n: nat, key: string)
    requires v.Obj? && 0 < n <= |v.fields|
    requires !(v.fields[n - 1].key == "dependencies" && v.fields[n - 1].value.Obj?)
    ensures Get(TranslateFields(v, n), key)
         == var e := Effect(v, v.fields[n - 1], key); if e.Some? then e else Get(TranslateFields(v, n - 1), key)
  {
    var f := v.fields[n - 1];
    var result := TranslateFields(v, n - 1);
    if f.key == "definitions" {
      GetPut(result, "$defs", Translate(f.value), key);
    } else if f.key == "$ref" && f.value.Str? {
      GetPut(result, "$ref", Str(RewriteRef(f.value.s)), key);
    } else if f.key == "items" && f.value.Arr? {
      GetPut(result, "prefixItems", Translate(f.value), key);
      GetPut(Put(result, "prefixItems", Translate(f.value)), "items", TranslatedRest(v), key);
    } else if f.key != "$schema" && f.key != "additionalItems" {
      GetPut(result, f.key, Translate(f.value), key);
    }
  }

  lemma ExpectedStep(v: Json, n: nat, key: string)
    requires Readable(v) && 0 < n <= |v.fields|
    requires key in WrittenKeywords ==> NoneWritten(v.fields)
    requires !(v.fields[n - 1].key == "dependencies" && v.fields[n - 1].value.Obj?)
    ensures Expected(v, n, key)
         == var e := Effect(v, v.fields[n - 1], key); if e.Some? then e else Expected(v, n - 1, key)
  {
    Finds(v.fields, n - 1, v.fields[n - 1].key);
  }

  lemma ExpectedDependencies(v: Json, n: nat, key: string)
    requires Readable(v) && 0 < n <= |v.fields|
    requires v.fields[n - 1].key == "dependencies" && v.fields[n - 1].value.Obj?
    ensures var deps := v.fields[n - 1].value;
            Expected(v, n, key)
            == if key == "dependentRequired" || key == "dependentSchemas" then Under(Collected(deps, key, |deps.fields|))
               else Expected(v, n - 1, key)
  {
    Finds(v.fields, n - 1, "dependencies");
    assert Find(v.fields, n, "dependencies") == Some(v.fields[n - 1].value);
  }

  lemma {:induction false} SplitDependenciesOther(result: seq<Field>, deps: Json, n: nat, key: string)
    requires deps.Obj? && n <= |deps.fields|
    requires key != "dependentRequired" && key != "dependentSchemas"
    ensures Get(SplitDependencies(result, deps, n), key) == Get(result, key)
  {
    hide Put, Translate;
    if n > 0 {
      var f := deps.fields[n - 1];
      var before := SplitDependencies(result, deps, n - 1);
      var target := DependencyTarget(f.value);
      SplitDependenciesOther(result, deps, n - 1, key);
      GetPut(before, target, Obj([Field(f.key, Translate(f.value))]), key);
      if Has(before, target) && Get(before, target).value.Obj? {
        GetPut(before, target, Obj(Put(Get(before, target).value.fields, f.key, Translate(f.value))), key);
      }
    }
  }

  /** The whole loop, keyword by keyword, whatever order the entries come in. */
  lemma {:induction false} TranslateFieldsGet(v: Json, n: nat, key: string)
    requires Readable(v) && n <= |v.fields|
    requires key in WrittenKeywords ==> NoneWritten(v.fields)
    ensures Get(TranslateFields(v, n), key) == Expected(v, n, key)
    decreases v, n, 1
  {
    if n > 0 {
      TranslateFieldsGet(v, n - 1, key);
      if v.fields[n - 1].key == "dependencies" && v.fields[n - 1].value.Obj? {
        TranslateDependenciesGet(v, n, key);
      } else {
        StepGet(v, n, key);
        ExpectedStep(v, n, key);
      }
    }
  }

  lemma {:induction false} TranslateDependenciesGet(v: Json, n: nat, key: string)
    requires Readable(v) && 0 < n <= |v.fields|
    requires v.fields[n - 1].key == "dependencies" && v.fields[n - 1].value.Obj?
    requires key in WrittenKeywords ==> NoneWritten(v.fields)
    requires Get(TranslateFields(v, n - 1), key) == Expected(v, n - 1, key)
    ensures Get(TranslateFields(v, n), key) == Expected(v, n, key)
    decreases v, n, 0
  {
    var result, deps := TranslateFields(v, n - 1), v.fields[n - 1].value;
    ExpectedDependencies(v, n, key);
    assert TranslateFields(v, n) == SplitDependencies(result, deps, |deps.fields|);
    if key == "dependentRequired" || key == "dependentSchemas" {
      TargetAbsent(v, n, "dependentRequired");
      TargetAbsent(v, n, "dependentSchemas");
      SplitDependenciesGet(result, deps, |deps.fields|, key);
    } else {
      SplitDependenciesOther(result, deps, |deps.fields|, key);
    }
  }

  lemma {:induction false} TargetAbsent(v: Json, n: nat, target: string)
    requires Readable(v) && 0 < n <= |v.fields| && NoneWritten(v.fields)
    requires v.fields[n - 1].key == "dependencies" && v.fields[n - 1].value.Obj?
    requires target == "dependentRequired" || target == "dependentSchemas"
    ensures Get(TranslateFields(v, n - 1), target).None?
    decreases v, n - 1, 2
  {
    hide TranslateFields, Expected, NoneWritten, Readable;
    TranslateFieldsGet(v, n - 1, target);
    ExpectedAbsent(v, n - 1, target);
  }

  lemma ExpectedAbsent(v: Json, n: nat, target: string)
    requires Readable(v) && n < |v.fields| && v.fields[n].key == "dependencies"
    requires target == "dependentRequired" || target == "dependentSchemas"
    ensures Expected(v, n, target).None?
  {
    Finds(v.fields, n, "dependencies");
    hide TranslateFields;
  }

  /** An entry the walk does not touch is assigned under its own key. */
  lemma PlainStep(v: Json, n: nat)
    requires v.Obj? && 0 < n <= |v.fields| && !Touches(v.fields[n - 1].key, v.fields[n - 1].value)
    ensures TranslateFields(v, n)
         == Put(TranslateFields(v, n - 1), v.fields[n - 1].key, Translate(v.fields[n - 1].value))
  {
    hide Put, SplitDependencies, TranslatedRest;
    var f := v.fields[n - 1];
    if f.key == "$ref" && f.value.Str? {
      assert RewriteRef(f.value.s) == f.value.s;
    }
  }

  lemma PutNew(fields: seq<Field>, key: string, value: Json)
    requires forall i :: 0 <= i < |fields| ==> fields[i].key != key
    ensures Put(fields, key, value) == fields + [Field(key, value)]
  {
    Finds(fields, |fields|, key);
  }

  /** Distinct keys: the key of the next entry is not among those before it. */
  lemma KeyUnused(fields: seq<Field>, before: seq<Field>)
    requires Distinct(fields) && |before| < |fields|
    requires forall i :: 0 <= i < |before| ==> before[i].key == fields[i].key
    ensures forall i :: 0 <= i < |before| ==> before[i].key != fields[|before|].key
  {
  }

  /** An object none of whose entries the walk touches is copied, entry by entry. */
  lemma {:induction false} NamesPlainFields(v: Json, n: nat)
    requires v.Obj? && n <= |v.fields| && Distinct(v.fields) && NamesPlain(v.fields)
    ensures |TranslateFields(v, n)| == n
    ensures forall i :: 0 <= i < n ==> TranslateFields(v, n)[i] == Field(v.fields[i].key, Translate(v.fields[i].value))
  {
    if n > 0 {
      hide TranslateFields, Translate, Put, Touches, Distinct;
      NamesPlainFields(v, n - 1);
      PlainStep(v, n);
      KeyUnused(v.fields, TranslateFields(v, n - 1));
      PutNew(TranslateFields(v, n - 1), v.fields[n - 1].key, Translate(v.fields[n - 1].value));
    }
  }

  lemma {:induction false} MappedFind(a: seq<Field>, fields: seq<Field>, n: nat, key: string)
    requires n <= |a| && n <= |fields|
    requires forall i :: 0 <= i < n ==> a[i] == Field(fields[i].key, Translate(fields[i].value))
    ensures Find(a, n, key) == MapTranslate(Find(fields, n, key))
  {
    hide Translate;
    if n > 0 {
      MappedFind(a, fields, n - 1, key);
    }
  }

  lemma NamesPlainGet(v: Json, n: nat, key: string)
    requires v.Obj? && n <= |v.fields| && Distinct(v.fields) && NamesPlain(v.fields)
    ensures Get(TranslateFields(v, n), key) == MapTranslate(Find(v.fields, n, key))
  {
    hide Translate, TranslateFields;
    NamesPlainFields(v, n);
    MappedFind(TranslateFields(v, n), v.fields, n, key);
  }

  /** Translation leaves a value alone exactly when nothing in it is an entry the walk rewrites. */
  lemma {:induction false} UntouchedKept(v: Json)
    requires WellFormed(v) && Untouched(v)
    ensures Translate(v) == v
    decreases v
  {
    match v
    case Arr(items) =>
      forall i | 0 <= i < |items| ensures Translate(items[i]) == items[i] {
        UntouchedKept(items[i]);
      }
      assert TranslateAll(items) == items;
    case Obj(fields) =>
      NamesPlainFields(v, |fields|);
      forall i | 0 <= i < |fields| ensures Translate(fields[i].value) == fields[i].value {
        assert fields[i] < v;
        UntouchedKept(fields[i].value);
      }
      assert TranslateFields(v, |fields|) == fields;
    case _ =>
  }

  /** ... and only then: an entry the walk rewrites is missing, moved or changed in the result. */
  lemma {:induction false} OnlyUntouchedKept(v: Json)
    requires WellFormed(v) && Translate(v) == v
    ensures Untouched(v)
    decreases v
  {
    match v
    case Arr(items) =>
      forall i | 0 <= i < |items| ensures Untouched(items[i]) {
        assert TranslateAll(items)[i] == Translate(items[i]);
        OnlyUntouchedKept(items[i]);
      }
    case Obj(fields) =>
      forall i | 0 <= i < |fields| ensures !Touches(fields[i].key, fields[i].value) {
        if Touches(fields[i].key, fields[i].value) {
          TouchedChanges(v, i);
        }
      }
      NamesPlainFields(v, |fields|);
      forall i | 0 <= i < |fields| ensures assert fields[i] < v; Untouched(fields[i].value) {
        assert fields[i] < v;
        assert TranslateFields(v, |fields|)[i] == fields[i];
        OnlyUntouchedKept(fields[i].value);
      }
    case _ =>
  }

  lemma WellFormedIsReadable(v: Json)
    requires WellFormed(v) && v.Obj?
    ensures Readable(v)
  {
    forall i | 0 <= i < |v.fields| && v.fields[i].key == "dependencies" && v.fields[i].value.Obj?
      ensures Distinct(v.fields[i].value.fields)
    {
      assert v.fields[i] < v;
    }
  }

  lemma TouchedChanges(v: Json, i: nat)
    requires WellFormed(v) && v.Obj? && i < |v.fields| && Touches(v.fields[i].key, v.fields[i].value)
    ensures Translate(v) != v
  {
    var f := v.fields[i];
    WellFormedIsReadable(v);
    GetAt(v.fields, i);
    TranslateFieldsGet(v, |v.fields|, f.key);
    if f.key == "$ref" {
      assert RewriteRef(f.value.s)[2] == '$' && f.value.s[2] == 'd';
    } else if f.key == "items" {
      TranslateFieldsGet(v, |v.fields|, "additionalItems");
    }
  }
}
