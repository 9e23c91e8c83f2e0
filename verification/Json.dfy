// JSON values as the components see them after decoding. The type of string
// values is a parameter: plain text, or text with more structure known.
module Json {
  import opened Wrappers

  datatype Json<T> =
    | Null
    | Bool(flag: bool)
    | Number(n: int)
    | Fraction(r: real)
    | Str(text: T)
    | Arr(items: seq<Json<T>>)
    | Obj(fields: seq<Field<T>>)

  datatype Field<T> = Field(key: string, value: Json<T>)

  function Lookup<T>(fields: seq<Field<T>>, key: string): Option<Json<T>> {
    if fields == [] then None
    else if fields[0].key == key then Some(fields[0].value)
    else Lookup(fields[1..], key)
  }

  // The value of the first field of that name, or none when no field has it.
  lemma {:induction false} LookupIsFirst<T>(fields: seq<Field<T>>, key: string) returns (i: nat)
    ensures i <= |fields| && forall j :: 0 <= j < i ==> fields[j].key != key
    ensures i < |fields| ==> fields[i].key == key
    ensures Lookup(fields, key) == if i < |fields| then Some(fields[i].value) else None
  {
    if fields == [] || fields[0].key == key {
      i := 0;
    } else {
      var k := LookupIsFirst(fields[1..], key);
      i := k + 1;
      forall j | 0 <= j < i ensures fields[j].key != key {
        assert j > 0 ==> fields[j] == fields[1..][j - 1];
      }
    }
  }

  // Value::get with a string key: None on anything but an object.
  function Get<T>(v: Json<T>, key: string): Option<Json<T>> {
    if v.Obj? then Lookup(v.fields, key) else None
  }

  function AsBool<T>(v: Option<Json<T>>): Option<bool> {
    if v.Some? && v.value.Bool? then Some(v.value.flag) else None
  }

  function AsStr<T>(v: Option<Json<T>>): Option<T> {
    if v.Some? && v.value.Str? then Some(v.value.text) else None
  }

  function AsArray<T>(v: Option<Json<T>>): Option<seq<Json<T>>> {
    if v.Some? && v.value.Arr? then Some(v.value.items) else None
  }

  // Value::as_u64, then a conversion to a type with the given largest value.
  function AsUnsigned<T>(v: Option<Json<T>>, max: nat): Option<nat> {
    if v.Some? && v.value.Number? && 0 <= v.value.n <= max then Some(v.value.n) else None
  }

  const MAX_U32: nat := 0xFFFF_FFFF
  const MAX_U64: nat := 0xFFFF_FFFF_FFFF_FFFF

  function Put<T>(fields: seq<Field<T>>, key: string, value: Json<T>): seq<Field<T>> {
    if fields == [] then [Field(key, value)]
    else if fields[0].key == key then [Field(key, value)] + fields[1..]
    else [fields[0]] + Put(fields[1..], key, value)
  }

  // value[key] = child on an object: replaces the field or adds it.
  function Set<T>(v: Json<T>, key: string, value: Json<T>): Json<T> {
    if v.Obj? then Obj(Put(v.fields, key, value)) else v
  }

  lemma {:induction false} LookupPut<T>(fields: seq<Field<T>>, key: string, value: Json<T>, other: string)
    ensures Lookup(Put(fields, key, value), other) == if other == key then Some(value) else Lookup(fields, other)
  {
    if fields != [] && fields[0].key != key {
      LookupPut(fields[1..], key, value, other);
      assert Put(fields, key, value)[1..] == Put(fields[1..], key, value);
    }
  }

  // A written field reads back, and every other field is as before.
  lemma GetSet<T>(v: Json<T>, key: string, value: Json<T>, other: string)
    requires v.Obj?
    ensures Get(Set(v, key, value), other) == if other == key then Some(value) else Get(v, other)
  {
    LookupPut(v.fields, key, value, other);
  }
}
