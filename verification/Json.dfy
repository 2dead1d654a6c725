/** JSON values, and objects as JavaScript keeps them: distinct keys in insertion order. */
module JsonValues {
  import opened Wrappers

  datatype Field = Field(key: string, value: Json)

  datatype Json =
    | Null
    | Bool(b: bool)
    | Num(n: real)
    | Str(s: string)
    | Arr(items: seq<Json>)
    | Obj(fields: seq<Field>)

  /** `object[key]`; `None` is `undefined`. */
  function Get(fields: seq<Field>, key: string): Option<Json> {
    Find(fields, |fields|, key)
  }

  /** `Get`, of the first `n` entries. */
  function Find(fields: seq<Field>, n: nat, key: string): Option<Json>
    requires n <= |fields|
  {
    if n == 0 then None
    else if fields[n - 1].key == key then Some(fields[n - 1].value)
    else Find(fields, n - 1, key)
  }

  lemma {:induction false} Finds(fields: seq<Field>, n: nat, key: string)
    requires n <= |fields|
    ensures Find(fields, n, key).Some? ==> exists i :: 0 <= i < n && fields[i] == Field(key, Find(fields, n, key).value)
    ensures Find(fields, n, key).None? ==> forall i :: 0 <= i < n ==> fields[i].key != key
  {
    if n > 0 {
      if fields[n - 1].key == key {
        assert fields[n - 1] == Field(key, Find(fields, n, key).value);
      } else {
        Finds(fields, n - 1, key);
      }
    }
  }

  lemma {:induction false} FindPrefix(a: seq<Field>, b: seq<Field>, n: nat, key: string)
    requires n <= |a| && n <= |b| && forall i :: 0 <= i < n ==> a[i] == b[i]
    ensures Find(a, n, key) == Find(b, n, key)
  {
    if n > 0 {
      FindPrefix(a, b, n - 1, key);
    }
  }

  /** `object[key] = value`: an existing key keeps its place, a new one goes last. */
  function Put(fields: seq<Field>, key: string, value: Json): (r: seq<Field>) {
    if Has(fields, key) then Replace(fields, key, value) else fields + [Field(key, value)]
  }

  function Replace(fields: seq<Field>, key: string, value: Json): seq<Field> {
    seq(|fields|, i requires 0 <= i < |fields| => if fields[i].key == key then Field(key, value) else fields[i])
  }

  /** The member of an object, smaller than the object that holds it. */
  function Member(o: Json, key: string): (r: Option<Json>)
    requires o.Obj?
    ensures r.Some? ==> r.value < o
  {
    var r := Get(o.fields, key);
    assert r.Some? ==> r.value < o by {
      Finds(o.fields, |o.fields|, key);
    }
    r
  }

  predicate Has(fields: seq<Field>, key: string) {
    Get(fields, key).Some?
  }

  /** Every JavaScript object has distinct keys. */
  predicate Distinct(fields: seq<Field>) {
    forall i, j :: 0 <= i < j < |fields| ==> fields[i].key != fields[j].key
  }

  lemma GetLast(fields: seq<Field>, f: Field, key: string)
    ensures Get(fields + [f], key) == if f.key == key then Some(f.value) else Get(fields, key)
  {
    FindPrefix(fields + [f], fields, |fields|, key);
  }

  lemma {:induction false} FindReplace(fields: seq<Field>, n: nat, key: string, value: Json, other: string)
    requires n <= |fields|
    ensures Find(Replace(fields, key, value), n, other)
         == if other == key && Find(fields, n, key).Some? then Some(value) else Find(fields, n, other)
  {
    if n > 0 {
      FindReplace(fields, n - 1, key, value, other);
    }
  }

  lemma GetPut(fields: seq<Field>, key: string, value: Json, other: string)
    ensures Get(Put(fields, key, value), other) == if other == key then Some(value) else Get(fields, other)
  {
    FindReplace(fields, |fields|, key, value, other);
    GetLast(fields, Field(key, value), other);
  }

  /** With distinct keys, a key's value is the one beside it. */
  lemma GetAt(fields: seq<Field>, i: nat)
    requires Distinct(fields) && i < |fields|
    ensures Get(fields, fields[i].key) == Some(fields[i].value)
  {
    Finds(fields, |fields|, fields[i].key);
    var j :| 0 <= j < |fields| && fields[j] == Field(fields[i].key, Get(fields, fields[i].key).value);
    assert i == j;
  }
}
