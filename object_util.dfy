/**
 * Flattening of nested property objects into dotted keys and back (`toDots`, `toObject`, `strip`).
 * `toDots` is a reduce over `Object.entries` whose accumulator is rebuilt by spreads, so a later key
 * overwrites an earlier equal one in place; `toObject` folds ramda's `assocPath` over the entries.
 */
module ObjectUtil {
  import opened Wrappers
  import opened JsStrings
  import opened JsonValues

  // ---------------------------------------------------------------------------------------------
  // Sizes, used as the termination measure of the mutually recursive conversions.

  function Size(v: Json): nat {
    match v
    case JArr(es) => 1 + SizeElems(es)
    case JObj(fs) => 1 + SizeFields(fs)
    case _ => 1
  }

  function SizeElems(es: seq<Json>): nat {
    if es == [] then 0 else Size(es[0]) + SizeElems(es[1..])
  }

  function SizeFields(fs: seq<Field>): nat {
    if fs == [] then 0 else Size(fs[0].value) + SizeFields(fs[1..])
  }

  /** `Object.entries(array)`: the elements keyed by their decimal index, starting at `start`. */
  function ArrayEntries(es: seq<Json>, start: nat): (r: seq<Field>)
    ensures |r| == |es| && SizeFields(r) == SizeElems(es)
    ensures forall i :: 0 <= i < |es| ==> r[i] == Field(NatToString(start + i), es[i])
  {
    if es == [] then [] else [Field(NatToString(start), es[0])] + ArrayEntries(es[1..], start + 1)
  }

  /** Leaves of `toDots`: strings are trimmed, everything else goes through `String(...)`. */
  function LeafString(v: Json): string
    requires !v.JObj? && !v.JArr?
  {
    match v
    case JStr(s) => Trim(s)
    case JNull => "null"
    case JUndefined => "undefined"
    case JBool(b) => if b then "true" else "false"
    case JNum(n) => IntToString(n)
  }

  predicate AllStrings(fs: seq<Field>) {
    forall i :: 0 <= i < |fs| ==> fs[i].value.JStr?
  }

  predicate KeysStartWith(fs: seq<Field>, path: string) {
    forall i :: 0 <= i < |fs| ==> path <= fs[i].key
  }

  lemma PutKeeps(acc: seq<Field>, f: Field, path: string)
    requires AllStrings(acc) && KeysStartWith(acc, path) && f.value.JStr? && path <= f.key
    ensures AllStrings(Put(acc, f.key, f.value)) && KeysStartWith(Put(acc, f.key, f.value), path)
  {
    var next := Put(acc, f.key, f.value);
    forall i | 0 <= i < |next| ensures next[i].value.JStr? && path <= next[i].key {
      if next[i] != Field(f.key, f.value) {
        var j :| 0 <= j < |acc| && acc[j] == next[i];
      }
    }
  }

  lemma {:induction false} SpreadKeeps(acc: seq<Field>, extra: seq<Field>, path: string)
    requires AllStrings(acc) && AllStrings(extra)
    requires KeysStartWith(acc, path) && KeysStartWith(extra, path)
    ensures AllStrings(Spread(acc, extra)) && KeysStartWith(Spread(acc, extra), path)
    decreases |extra|
  {
    if extra != [] {
      PutKeeps(acc, extra[0], path);
      var next := Put(acc, extra[0].key, extra[0].value);
      assert AllStrings(extra[1..]) && KeysStartWith(extra[1..], path);
      SpreadKeeps(next, extra[1..], path);
    }
  }

  // ---------------------------------------------------------------------------------------------
  // toDots

  /**
   * `toDots(obj, path)`. Every value of the result is a string, and every key starts with `path`:
   * a leaf under key `k` is stored at `path + k`, a nested object or array is flattened under
   * `path + k + "."`.
   */
  function ToDots(fs: seq<Field>, path: string): (r: seq<Field>)
    ensures AllStrings(r) && KeysStartWith(r, path)
    decreases SizeFields(fs), 2
  {
    DotsFrom([], fs, path)
  }

  /** The reduce over the entries, from accumulator `acc`. */
  function DotsFrom(acc: seq<Field>, fs: seq<Field>, path: string): (r: seq<Field>)
    requires AllStrings(acc) && KeysStartWith(acc, path)
    ensures AllStrings(r) && KeysStartWith(r, path)
    decreases SizeFields(fs), 1
  {
    if fs == [] then acc else DotsFrom(DotStep(acc, fs[0], path), fs[1..], path)
  }

  /** One step of the reduce: `{...acc, ...toDots(value, path + key + '.')}` or `{...acc, [path + key]: leaf}`. */
  function DotStep(acc: seq<Field>, f: Field, path: string): (r: seq<Field>)
    requires AllStrings(acc) && KeysStartWith(acc, path)
    ensures AllStrings(r) && KeysStartWith(r, path)
    decreases Size(f.value), 0
  {
    match f.value
    case JObj(inner) =>
      var sub := ToDots(inner, path + f.key + ".");
      assert KeysStartWith(sub, path) by {
        forall i | 0 <= i < |sub| ensures path <= sub[i].key {
          assert path <= path + f.key + ".";
        }
      }
      SpreadKeeps(acc, sub, path);
      Spread(acc, sub)
    case JArr(es) =>
      var sub := ToDots(ArrayEntries(es, 0), path + f.key + ".");
      assert KeysStartWith(sub, path) by {
        forall i | 0 <= i < |sub| ensures path <= sub[i].key {
          assert path <= path + f.key + ".";
        }
      }
      SpreadKeeps(acc, sub, path);
      Spread(acc, sub)
    case _ =>
      Put(acc, path + f.key, JStr(LeafString(f.value)))
  }

  lemma {:induction false} DotsFromAppend(acc: seq<Field>, fs: seq<Field>, f: Field, path: string)
    requires AllStrings(acc) && KeysStartWith(acc, path)
    ensures DotsFrom(acc, fs + [f], path) == DotStep(DotsFrom(acc, fs, path), f, path)
    decreases |fs|
  {
    if fs == [] {
      assert [f][1..] == [];
    } else {
      assert (fs + [f])[0] == fs[0];
      assert (fs + [f])[1..] == fs[1..] + [f];
      DotsFromAppend(DotStep(acc, fs[0], path), fs[1..], f, path);
    }
  }

  /** On a collision the entry that comes later wins: the last leaf's key holds the last leaf's value. */
  lemma LaterLeafWins(fs: seq<Field>, key: string, leaf: Json, path: string)
    requires !leaf.JObj? && !leaf.JArr?
    ensures Get(ToDots(fs + [Field(key, leaf)], path), path + key) == Some(JStr(LeafString(leaf)))
  {
    DotsFromAppend([], fs, Field(key, leaf), path);
  }

  /** A nested object is spread, flattened under `path + key + "."`, over what came before it. */
  lemma NestedIsSpread(fs: seq<Field>, key: string, inner: seq<Field>, path: string)
    ensures ToDots(fs + [Field(key, JObj(inner))], path) == Spread(ToDots(fs, path), ToDots(inner, path + key + "."))
  {
    DotsFromAppend([], fs, Field(key, JObj(inner)), path);
  }

  /**
   * An array is an object too: its elements are flattened under `path + key + '.'`, each keyed by its
   * decimal index, and spread over what came before.
   */
  lemma ArrayIsSpread(fs: seq<Field>, key: string, es: seq<Json>, path: string)
    ensures ToDots(fs + [Field(key, JArr(es))], path) == Spread(ToDots(fs, path), ToDots(ArrayEntries(es, 0), path + key + "."))
  {
    DotsFromAppend([], fs, Field(key, JArr(es)), path);
  }

  /** An empty nested object contributes no keys. */
  lemma EmptyObjectAddsNothing(fs: seq<Field>, key: string, path: string)
    ensures ToDots(fs + [Field(key, JObj([]))], path) == ToDots(fs, path)
  {
    NestedIsSpread(fs, key, [], path);
  }

  // ---------------------------------------------------------------------------------------------
  // toObject

  /** `_has(idx, obj)` followed by `obj[idx]`: own property lookup on objects and arrays. */
  function Prop(obj: Json, idx: string): Option<Json> {
    match obj
    case JObj(fs) => Get(fs, idx)
    case JArr(es) => Get(ArrayEntries(es, 0), idx)
    case _ => None
  }

  /**
   * ramda's `_assoc(idx, val, obj)` for a string `idx`: a shallow copy with `idx` set. An array receiver
   * is copied key by key into a plain object; `null`, `undefined`, numbers and booleans have no
   * enumerable keys. (A string receiver never reaches here from `toObject`.)
   */
  function Assoc(idx: string, val: Json, obj: Json): (r: Json)
    ensures r.JObj?
  {
    match obj
    case JObj(fs) => JObj(Put(fs, idx, val))
    case JArr(es) => JObj(Put(ArrayEntries(es, 0), idx, val))
    case _ => JObj([Field(idx, val)])
  }

  /**
   * ramda's `assocPath(path, val, obj)`. Path segments come from `split`, so they are strings and the
   * missing intermediate is always a plain object (`_isInteger(path[1])` is false for a string).
   */
  function AssocPath(path: seq<string>, val: Json, obj: Json): Json
    decreases |path|
  {
    if path == [] then val
    else
      var idx := path[0];
      var v :=
        if |path| > 1 then
          var p := Prop(obj, idx);
          var next := if !IsNil(obj) && p.Some? && IsTypeofObject(p.value) then p.value else JObj([]);
          AssocPath(path[1..], val, next)
        else val;
      Assoc(idx, v, obj)
  }

  /** One iteration of `toObject`'s `forEach`. */
  function AssocEntry(result: Json, e: Field): Json {
    AssocPath(Split(e.key, '.'), e.value, result)
  }

  /** The `forEach` from accumulator `result`. */
  function AssocAll(result: Json, entries: seq<Field>): Json
    decreases |entries|
  {
    if entries == [] then result else AssocAll(AssocEntry(result, entries[0]), entries[1..])
  }

  lemma {:induction false} AssocAllAppend(result: Json, entries: seq<Field>, e: Field)
    ensures AssocAll(result, entries + [e]) == AssocEntry(AssocAll(result, entries), e)
    decreases |entries|
  {
    if entries == [] {
      assert [e][1..] == [];
    } else {
      assert (entries + [e])[0] == entries[0];
      assert (entries + [e])[1..] == entries[1..] + [e];
      AssocAllAppend(AssocEntry(result, entries[0]), entries[1..], e);
    }
  }

  /** `toObject(obj)`: reassigns `result` once per entry, in entry order. */
  method ToObject(entries: seq<Field>) returns (result: Json)
    ensures result == AssocAll(JObj([]), entries)
  {
    result := JObj([]);
    var i := 0;
    while i < |entries|
      invariant 0 <= i <= |entries|
      invariant AssocAll(result, entries[i..]) == AssocAll(JObj([]), entries)
    {
      AssocAllStep(result, entries, i);
      result := AssocEntry(result, entries[i]);
      i := i + 1;
    }
  }

  lemma AssocAllStep(result: Json, entries: seq<Field>, i: nat)
    requires i < |entries|
    ensures AssocAll(result, entries[i..]) == AssocAll(AssocEntry(result, entries[i]), entries[i + 1..])
  {
    assert entries[i..][0] == entries[i] && entries[i..][1..] == entries[i + 1..];
  }

  /** A dot-free key becomes a top-level entry of the object being built. */
  lemma DotFreeKeyIsTopLevel(fs: seq<Field>, e: Field)
    requires '.' !in e.key
    ensures AssocEntry(JObj(fs), e) == JObj(Put(fs, e.key, e.value))
  {
    SplitNoSep(e.key, '.');
  }

  // ---------------------------------------------------------------------------------------------
  // strip

  /** ramda's `isEmpty` on these values: the empty string, array and object. */
  predicate IsEmptyValue(v: Json) {
    v == JStr("") || v == JArr([]) || v == JObj([])
  }

  /** `strip(obj)`: `reject(anyPass([isEmpty, isNil]))`, keeping the order of the surviving entries. */
  function Strip(fs: seq<Field>): (r: seq<Field>)
    ensures forall i :: 0 <= i < |r| ==> !IsNil(r[i].value) && !IsEmptyValue(r[i].value)
    ensures forall i :: 0 <= i < |fs| ==> (fs[i] in r <==> !IsNil(fs[i].value) && !IsEmptyValue(fs[i].value))
    ensures forall i :: 0 <= i < |r| ==> r[i] in fs
    ensures |r| <= |fs|
  {
    if fs == [] then []
    else if IsNil(fs[0].value) || IsEmptyValue(fs[0].value) then Strip(fs[1..])
    else [fs[0]] + Strip(fs[1..])
  }

  /** Stripping works entry by entry: the survivors of `a + b` are those of `a` followed by those of `b`,
    * so every kept entry keeps its place relative to the others. */
  lemma {:induction false} StripConcat(a: seq<Field>, b: seq<Field>)
    ensures Strip(a + b) == Strip(a) + Strip(b)
    decreases |a|
  {
    if a == [] {
      assert a + b == b;
    } else {
      assert (a + b)[0] == a[0] && (a + b)[1..] == a[1..] + b;
      StripConcat(a[1..], b);
    }
  }

  /** One entry is kept, unchanged, exactly when its value is neither nil nor empty. */
  lemma StripOne(f: Field)
    ensures Strip([f]) == (if IsNil(f.value) || IsEmptyValue(f.value) then [] else [f])
  {
    assert [f][1..] == [];
  }
}
