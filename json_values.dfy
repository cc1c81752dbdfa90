/**
 * JavaScript values as the event buffers and the incoming-event job see them after `JSON.parse`. Objects
 * are kept as ordered field lists, because spreads and assignments overwrite an existing key in place and
 * append a new one at the end, and that order decides which of two colliding keys wins.
 */
module JsonValues {
  import opened Wrappers

  datatype Json =
    | JNull
    | JUndefined
    | JBool(b: bool)
    | JNum(n: int)
    | JStr(s: string)
    | JArr(elems: seq<Json>)
    | JObj(fields: seq<Field>)

  datatype Field = Field(key: string, value: Json)

  function Keys(fs: seq<Field>): (ks: seq<string>)
    ensures |ks| == |fs| && forall i :: 0 <= i < |fs| ==> ks[i] == fs[i].key
  {
    if fs == [] then [] else [fs[0].key] + Keys(fs[1..])
  }

  /** Own keys are unique, as in any JavaScript object. */
  predicate UniqueKeys(fs: seq<Field>) {
    forall i, j :: 0 <= i < j < |fs| ==> fs[i].key != fs[j].key
  }

  /** `obj[key]`: the value of the field named `key`, if any. */
  function Get(fs: seq<Field>, key: string): (r: Option<Json>)
    ensures r.None? <==> key !in Keys(fs)
    ensures r.Some? ==> exists i :: 0 <= i < |fs| && fs[i] == Field(key, r.value)
  {
    if fs == [] then None
    else if fs[0].key == key then Some(fs[0].value)
    else Get(fs[1..], key)
  }

  /** `obj[key] = value`: an existing key keeps its position and takes the new value; a new key is appended. */
  function Put(fs: seq<Field>, key: string, value: Json): (r: seq<Field>)
    ensures key !in Keys(fs) ==> r == fs + [Field(key, value)]
    ensures key in Keys(fs) ==> |r| == |fs|
    ensures Get(r, key) == Some(value)
    ensures forall i :: 0 <= i < |r| ==> r[i] == Field(key, value) || r[i] in fs
  {
    if fs == [] then [Field(key, value)]
    else if fs[0].key == key then [Field(key, value)] + fs[1..]
    else
      assert key !in Keys(fs) ==> key !in Keys(fs[1..]) && [fs[0]] + (fs[1..] + [Field(key, value)]) == fs + [Field(key, value)];
      [fs[0]] + Put(fs[1..], key, value)
  }

  lemma {:induction false} PutOther(fs: seq<Field>, key: string, value: Json, other: string)
    requires other != key
    ensures Get(Put(fs, key, value), other) == Get(fs, other)
  {
    if fs != [] && fs[0].key != key {
      PutOther(fs[1..], key, value, other);
    }
  }

  lemma {:induction false} PutKeys(fs: seq<Field>, key: string, value: Json)
    ensures key in Keys(fs) ==> Keys(Put(fs, key, value)) == Keys(fs)
  {
    if fs != [] && fs[0].key != key {
      PutKeys(fs[1..], key, value);
    }
  }

  /** `{...acc, ...extra}`: the fields of `extra` assigned one by one onto `acc`. */
  function Spread(acc: seq<Field>, extra: seq<Field>): seq<Field>
    decreases |extra|
  {
    if extra == [] then acc else Spread(Put(acc, extra[0].key, extra[0].value), extra[1..])
  }

  /** `typeof v === 'object'`: objects, arrays and null. */
  predicate IsTypeofObject(v: Json) {
    v.JObj? || v.JArr? || v.JNull?
  }

  /** `undefined` and `null`. */
  predicate IsNil(v: Json) {
    v.JNull? || v.JUndefined?
  }

  /** JavaScript truthiness for these values. */
  predicate Truthy(v: Json) {
    match v
    case JNull => false
    case JUndefined => false
    case JBool(b) => b
    case JNum(n) => n != 0
    case JStr(s) => s != ""
    case JArr(_) => true
    case JObj(_) => true
  }
}
