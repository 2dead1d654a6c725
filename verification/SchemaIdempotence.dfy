/** When translating twice is translating once. */
module SchemaIdempotence {
  import opened JsonValues
  import opened Wrappers
  import opened SchemaTranslation

  /**
   * The one place the walk lets a name through unread is a dependency's, and a second walk reads
   * it: nothing it would rewrite may be named there. A tuple's `additionalItems` moves to `items`,
   * so it may not be a list, which the second walk would take for another tuple.
   */
  ghost predicate Settles(v: Json)
    decreases v
  {
    match v
    case Arr(items) => forall i :: 0 <= i < |items| ==> Settles(items[i])
    case Obj(fields) => forall i :: 0 <= i < |fields| ==> assert fields[i] < v; EntrySettles(v, fields[i])
    case _ => true
  }

  ghost predicate EntrySettles(v: Json, f: Field)
    requires v.Obj? && f < v
    decreases v, 0
  {
    if f.key == "$schema" || f.key == "additionalItems" || (f.key == "$ref" && f.value.Str?) then true
    else if f.key == "items" && f.value.Arr? then
      var rest := Member(v, "additionalItems");
      Settles(f.value) && (rest.Some? ==> !rest.value.Arr? && Settles(rest.value))
    else if f.key == "dependencies" && f.value.Obj? then
      forall i :: 0 <= i < |f.value.fields| ==>
        var d := f.value.fields[i];
        assert d < f.value;
        !Touches(d.key, Translate(d.value)) && Settles(d.value)
    else Settles(f.value)
  }

  /** No object the walk reads holds a keyword the walk writes under. */
  ghost predicate NoClash(v: Json)
    decreases v
  {
    match v
    case Arr(items) => forall i :: 0 <= i < |items| ==> NoClash(items[i])
    case Obj(fields) =>
      && NoneWritten(fields)
      && forall i :: 0 <= i < |fields| ==>
        var f := fields[i];
        assert f < v;
        if f.key == "dependencies" && f.value.Obj?
        then forall j :: 0 <= j < |f.value.fields| ==> assert f.value.fields[j] < f.value; NoClash(f.value.fields[j].value)
        else NoClash(f.value)
    case _ => true
  }

  predicate Kept(f: Field) {
    !Touches(f.key, f.value) && Untouched(f.value)
  }

  predicate AllKept(fields: seq<Field>) {
    forall i :: 0 <= i < |fields| ==> Kept(fields[i])
  }

  lemma UntouchedObject(fields: seq<Field>)
    ensures Untouched(Obj(fields)) <==> AllKept(fields)
  {
    forall i | 0 <= i < |fields| ensures fields[i] < Obj(fields) {
    }
  }

  lemma PutKept(fields: seq<Field>, key: string, value: Json)
    requires AllKept(fields) && Kept(Field(key, value))
    ensures AllKept(Put(fields, key, value))
  {
  }

  lemma AssignUnderKept(result: seq<Field>, target: string, name: string, value: Json)
    requires AllKept(result) && Kept(Field(name, value))
    requires target == "dependentRequired" || target == "dependentSchemas"
    ensures AllKept(AssignUnder(result, target, name, value))
  {
    UntouchedObject([Field(name, value)]);
    match Get(result, target)
    case Some(Obj(entries)) =>
      Finds(result, |result|, target);
      UntouchedObject(entries);
      PutKept(entries, name, value);
      UntouchedObject(Put(entries, name, value));
      PutKept(result, target, Obj(Put(entries, name, value)));
    case Some(Null) => PutKept(result, target, Obj([Field(name, value)]));
    case None => PutKept(result, target, Obj([Field(name, value)]));
    case _ =>
  }

  lemma RewrittenOnce(r: string)
    ensures !(OldPrefix <= RewriteRef(r))
  {
    if OldPrefix <= r {
      assert RewriteRef(r)[2] == '$' && OldPrefix[2] == 'd';
    }
  }

  lemma {:induction false} SettledDependencies(result: seq<Field>, v: Json, deps: Json, n: nat)
    requires v.Obj? && Field("dependencies", deps) < v && deps.Obj? && n <= |deps.fields| && AllKept(result)
    requires EntrySettles(v, Field("dependencies", deps))
    ensures AllKept(SplitDependencies(result, deps, n))
    decreases deps, 0, n
  {
    if n > 0 {
      SettledDependencies(result, v, deps, n - 1);
      var f := deps.fields[n - 1];
      assert f < deps;
      Settled(f.value);
      AssignUnderKept(SplitDependencies(result, deps, n - 1), DependencyTarget(f.value), f.key, Translate(f.value));
    }
  }

  lemma {:induction false} SettledFields(v: Json, n: nat)
    requires v.Obj? && n <= |v.fields| && Settles(v)
    ensures AllKept(TranslateFields(v, n))
    decreases v, 0, n
  {
    if n > 0 {
      SettledFields(v, n - 1);
      var result := TranslateFields(v, n - 1);
      var f := v.fields[n - 1];
      assert f < v;
      assert EntrySettles(v, f);
      if f.key == "$schema" || f.key == "additionalItems" {
      } else if f.key == "$ref" && f.value.Str? {
        RewrittenOnce(f.value.s);
        PutKept(result, "$ref", Str(RewriteRef(f.value.s)));
      } else if f.key == "items" && f.value.Arr? {
        Settled(f.value);
        var rest := Member(v, "additionalItems");
        if rest.Some? {
          Settled(rest.value);
        }
        PutKept(result, "prefixItems", Translate(f.value));
        PutKept(Put(result, "prefixItems", Translate(f.value)), "items", TranslatedRest(v));
      } else if f.key == "dependencies" && f.value.Obj? {
        SettledDependencies(result, v, f.value, |f.value.fields|);
      } else {
        Settled(f.value);
        PutKept(result, if f.key == "definitions" then "$defs" else f.key, Translate(f.value));
      }
    }
  }

  lemma {:induction false} Settled(v: Json)
    requires Settles(v)
    ensures Untouched(Translate(v))
    decreases v, 1
  {
    match v
    case Arr(items) =>
      forall i | 0 <= i < |items| ensures Untouched(Translate(items[i])) {
        Settled(items[i]);
      }
    case Obj(fields) =>
      SettledFields(v, |fields|);
      UntouchedObject(TranslateFields(v, |fields|));
    case _ =>
  }

  /** The entry that the loop puts under `key` is somewhere in the result. */
  lemma ResultKept(v: Json, key: string, value: Json)
    requires v.Obj? && Untouched(Translate(v)) && Get(Translate(v).fields, key) == Some(value)
    ensures Kept(Field(key, value))
  {
    UntouchedObject(Translate(v).fields);
    Finds(Translate(v).fields, |Translate(v).fields|, key);
  }

  lemma {:induction false} CollectedHas(deps: Json, target: string, n: nat, i: nat)
    requires deps.Obj? && i < n <= |deps.fields| && DependencyTarget(deps.fields[i].value) == target
    ensures Field(deps.fields[i].key, Translate(deps.fields[i].value)) in Collected(deps, target, n)
  {
    if i < n - 1 {
      CollectedHas(deps, target, n - 1, i);
    }
  }

  lemma DependencyKept(v: Json, deps: Json, i: nat)
    requires WellFormed(v) && NoClash(v) && v.Obj? && Untouched(Translate(v))
    requires Get(v.fields, "dependencies") == Some(deps) && deps.Obj? && i < |deps.fields|
    ensures Kept(Field(deps.fields[i].key, Translate(deps.fields[i].value)))
  {
    var d := deps.fields[i];
    var target := DependencyTarget(d.value);
    var entries := Collected(deps, target, |deps.fields|);
    CollectedHas(deps, target, |deps.fields|, i);
    CollectedUnder(v, deps, target);
    ResultKept(v, target, Obj(entries));
    UntouchedObject(entries);
  }

  lemma CollectedUnder(v: Json, deps: Json, target: string)
    requires WellFormed(v) && NoClash(v) && v.Obj?
    requires target == "dependentRequired" || target == "dependentSchemas"
    requires Get(v.fields, "dependencies") == Some(deps) && deps.Obj?
    requires Collected(deps, target, |deps.fields|) != []
    ensures Get(Translate(v).fields, target) == Some(Obj(Collected(deps, target, |deps.fields|)))
  {
    WellFormedIsReadable(v);
    TranslateFieldsGet(v, |v.fields|, target);
  }

  lemma {:induction false} OnlySettledEntry(v: Json, i: nat)
    requires WellFormed(v) && NoClash(v) && v.Obj? && i < |v.fields| && Untouched(Translate(v))
    ensures assert v.fields[i] < v; EntrySettles(v, v.fields[i])
    decreases v, 0
  {
    var f := v.fields[i];
    assert f < v;
    GetAt(v.fields, i);
    WellFormedIsReadable(v);
    if f.key == "$schema" || f.key == "additionalItems" || (f.key == "$ref" && f.value.Str?) {
    } else if f.key == "items" && f.value.Arr? {
      TranslateFieldsGet(v, |v.fields|, "prefixItems");
      TranslateFieldsGet(v, |v.fields|, "items");
      ResultKept(v, "prefixItems", Translate(f.value));
      ResultKept(v, "items", TranslatedRest(v));
      OnlySettled(f.value);
      var rest := Member(v, "additionalItems");
      if rest.Some? {
        Finds(v.fields, |v.fields|, "additionalItems");
        if !rest.value.Null? {
          OnlySettled(rest.value);
        }
      }
    } else if f.key == "dependencies" && f.value.Obj? {
      forall j | 0 <= j < |f.value.fields|
        ensures var d := f.value.fields[j]; assert d < f.value; !Touches(d.key, Translate(d.value)) && Settles(d.value)
      {
        assert f.value.fields[j] < f.value;
        DependencyKept(v, f.value, j);
        OnlySettled(f.value.fields[j].value);
      }
    } else {
      var key := if f.key == "definitions" then "$defs" else f.key;
      TranslateFieldsGet(v, |v.fields|, key);
      ResultKept(v, key, Translate(f.value));
      OnlySettled(f.value);
    }
  }

  lemma {:induction false} OnlySettled(v: Json)
    requires WellFormed(v) && NoClash(v) && Untouched(Translate(v))
    ensures Settles(v)
    decreases v, 1
  {
    match v
    case Arr(items) =>
      forall i | 0 <= i < |items| ensures Settles(items[i]) {
        assert Translate(v).items[i] == Translate(items[i]);
        OnlySettled(items[i]);
      }
    case Obj(fields) =>
      forall i | 0 <= i < |fields| ensures assert fields[i] < v; EntrySettles(v, fields[i]) {
        OnlySettledEntry(v, i);
      }
    case _ =>
  }

  lemma PutDistinct(fields: seq<Field>, key: string, value: Json)
    requires Distinct(fields)
    ensures Distinct(Put(fields, key, value))
  {
    Finds(fields, |fields|, key);
  }

  predicate FieldsWellFormed(fields: seq<Field>) {
    Distinct(fields) && forall i :: 0 <= i < |fields| ==> WellFormed(fields[i].value)
  }

  lemma WellFormedObject(fields: seq<Field>)
    ensures WellFormed(Obj(fields)) <==> FieldsWellFormed(fields)
  {
    forall i | 0 <= i < |fields| ensures fields[i] < Obj(fields) {
    }
  }

  lemma PutWellFormed(fields: seq<Field>, key: string, value: Json)
    requires FieldsWellFormed(fields) && WellFormed(value)
    ensures FieldsWellFormed(Put(fields, key, value))
  {
    PutDistinct(fields, key, value);
  }

  lemma AssignUnderWellFormed(result: seq<Field>, target: string, name: string, value: Json)
    requires FieldsWellFormed(result) && WellFormed(value)
    ensures FieldsWellFormed(AssignUnder(result, target, name, value))
  {
    WellFormedObject([Field(name, value)]);
    match Get(result, target)
    case Some(Obj(entries)) =>
      Finds(result, |result|, target);
      WellFormedObject(entries);
      PutWellFormed(entries, name, value);
      WellFormedObject(Put(entries, name, value));
      PutWellFormed(result, target, Obj(Put(entries, name, value)));
    case Some(Null) => PutWellFormed(result, target, Obj([Field(name, value)]));
    case None => PutWellFormed(result, target, Obj([Field(name, value)]));
    case _ =>
  }

  lemma {:induction false} SplitWellFormed(result: seq<Field>, deps: Json, n: nat)
    requires deps.Obj? && n <= |deps.fields| && FieldsWellFormed(result)
    ensures FieldsWellFormed(SplitDependencies(result, deps, n))
    decreases deps, 0, n
  {
    hide FieldsWellFormed, WellFormed, AssignUnder, Translate;
    if n > 0 {
      SplitWellFormed(result, deps, n - 1);
      var f := deps.fields[n - 1];
      assert f < deps;
      TranslateWellFormed(f.value);
      AssignUnderWellFormed(SplitDependencies(result, deps, n - 1), DependencyTarget(f.value), f.key, Translate(f.value));
    }
  }

  lemma {:induction false} FieldsTranslateWellFormed(v: Json, n: nat)
    requires v.Obj? && n <= |v.fields|
    ensures FieldsWellFormed(TranslateFields(v, n))
    decreases v, 0, n
  {
    if n > 0 {
      FieldsTranslateWellFormed(v, n - 1);
      var result := TranslateFields(v, n - 1);
      var f := v.fields[n - 1];
      assert f < v;
      TranslateWellFormed(f.value);
      if f.key == "items" && f.value.Arr? {
        var rest := Member(v, "additionalItems");
        if rest.Some? {
          TranslateWellFormed(rest.value);
        }
        PutWellFormed(result, "prefixItems", Translate(f.value));
        PutWellFormed(Put(result, "prefixItems", Translate(f.value)), "items", TranslatedRest(v));
      } else if f.key == "dependencies" && f.value.Obj? {
        SplitWellFormed(result, f.value, |f.value.fields|);
      } else if f.key == "$ref" && f.value.Str? {
        PutWellFormed(result, "$ref", Str(RewriteRef(f.value.s)));
      } else if f.key != "$schema" && f.key != "additionalItems" {
        PutWellFormed(result, if f.key == "definitions" then "$defs" else f.key, Translate(f.value));
      }
    }
  }

  /** The result is an object JavaScript could hold, whatever the input. */
  lemma {:induction false} TranslateWellFormed(v: Json)
    ensures WellFormed(Translate(v))
    decreases v, 1
  {
    match v
    case Arr(items) =>
      forall i | 0 <= i < |items| ensures WellFormed(Translate(items[i])) {
        TranslateWellFormed(items[i]);
      }
    case Obj(fields) =>
      FieldsTranslateWellFormed(v, |fields|);
      WellFormedObject(TranslateFields(v, |fields|));
    case _ =>
  }

  /** Translating twice is translating once when no name the walk let through is a keyword of it ... */
  lemma TwiceIsOnce(v: Json)
    requires Settles(v)
    ensures Translate(Translate(v)) == Translate(v)
  {
    Settled(v);
    TranslateWellFormed(v);
    UntouchedKept(Translate(v));
  }

  /** ... and, in a document that holds none of the keywords the walk writes under, only then. */
  lemma TwiceIsOnceExactly(v: Json)
    requires WellFormed(v) && NoClash(v)
    ensures Translate(Translate(v)) == Translate(v) <==> Settles(v)
  {
    if Settles(v) {
      TwiceIsOnce(v);
    }
    if Translate(Translate(v)) == Translate(v) {
      TranslateWellFormed(v);
      OnlyUntouchedKept(Translate(v));
      OnlySettled(v);
    }
  }

  lemma NamesKept(names: Json)
    requires names == Arr([Str("a")])
    ensures Translate(names) == names
  {
    assert Translate(Str("a")) == Str("a");
    assert TranslateAll(names.items) == names.items;
  }

  lemma OneDependency(deps: Json, name: string, value: Json)
    requires deps == Obj([Field(name, value)]) && value.Arr?
    ensures SplitDependencies([], deps, 1) == [Field("dependentRequired", Obj([Field(name, Translate(value))]))]
  {
    hide Translate;
    assert SplitDependencies([], deps, 0) == [];
    assert AssignUnder([], "dependentRequired", name, Translate(value))
        == [Field("dependentRequired", Obj([Field(name, Translate(value))]))];
  }

  lemma TranslateOne(v: Json)
    requires v.Obj? && |v.fields| == 1
    ensures Translate(v) == Obj(TranslateFields(v, 1)) && TranslateFields(v, 0) == []
  {
  }

  // What becomes of a schema of one entry

  lemma DependenciesEntry(v: Json, deps: Json)
    requires v == Obj([Field("dependencies", deps)]) && deps.Obj? && |deps.fields| == 1
    ensures Translate(v) == Obj(SplitDependencies([], deps, 1))
  {
    hide Translate, SplitDependencies, Put, TranslatedRest;
    TranslateOne(v);
    assert v.fields[0] == Field("dependencies", deps);
  }

  lemma DefinitionsEntry(value: Json)
    ensures Translate(Obj([Field("definitions", value)])) == Obj([Field("$defs", Translate(value))])
  {
    TranslateOne(Obj([Field("definitions", value)]));
    hide Translate, SplitDependencies;
  }

  lemma RequiredEntry(value: Json)
    ensures Translate(Obj([Field("dependentRequired", value)])) == Obj([Field("dependentRequired", Translate(value))])
  {
    TranslateOne(Obj([Field("dependentRequired", value)]));
    hide Translate, SplitDependencies;
  }

  lemma DependencySplit(names: Json, deps: Json)
    requires names == Arr([Str("a")]) && deps == Obj([Field("definitions", names)])
    ensures Translate(Obj([Field("dependencies", deps)])) == Obj([Field("dependentRequired", deps)])
  {
    hide Translate, SplitDependencies;
    NamesKept(names);
    OneDependency(deps, "definitions", names);
    DependenciesEntry(Obj([Field("dependencies", deps)]), deps);
  }

  lemma DependencyRenamed(names: Json, deps: Json)
    requires names == Arr([Str("a")]) && deps == Obj([Field("definitions", names)])
    ensures Translate(Obj([Field("dependentRequired", deps)])) == Obj([Field("dependentRequired", Obj([Field("$defs", names)]))])
  {
    hide Translate;
    NamesKept(names);
    DefinitionsEntry(names);
    RequiredEntry(deps);
  }

  /** A dependency named `definitions` survives one walk and not two. */
  lemma DependencyNameCounterexample()
    ensures var v := Obj([Field("dependencies", Obj([Field("definitions", Arr([Str("a")]))]))]);
            && Translate(v) == Obj([Field("dependentRequired", Obj([Field("definitions", Arr([Str("a")]))]))])
            && Translate(Translate(v)) == Obj([Field("dependentRequired", Obj([Field("$defs", Arr([Str("a")]))]))])
  {
    hide Translate;
    var names := Arr([Str("a")]);
    DependencySplit(names, Obj([Field("definitions", names)]));
    DependencyRenamed(names, Obj([Field("definitions", names)]));
  }
}
