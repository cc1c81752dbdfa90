/**
 * `toObject(toDots(o)) == o` for nested objects whose keys are unique and dot-free, whose nested objects
 * are non-empty and whose leaves are already-trimmed strings. The proof goes through the list of
 * (path, leaf) pairs of `o`: `toDots` renders each path joined with dots, and `toObject` splits each key
 * back into its path and rebuilds the object field by field.
 */
module ObjectRoundTrip {
  import opened Wrappers
  import opened JsStrings
  import opened JsonValues
  import opened ObjectUtil

  predicate WellFormed(fs: seq<Field>)
    decreases SizeFields(fs), 1
  {
    fs == [] ||
    ('.' !in fs[0].key && fs[0].key !in Keys(fs[1..]) && WellFormedValue(fs[0].value) && WellFormed(fs[1..]))
  }

  predicate WellFormedValue(v: Json)
    decreases Size(v), 0
  {
    match v
    case JStr(s) => IsTrimmed(s)
    case JObj(inner) => inner != [] && WellFormed(inner)
    case _ => false
  }

  datatype PathEntry = PathEntry(path: seq<string>, value: Json)

  /** The leaves of an object, each with the list of keys that leads to it, in entry order. */
  function Flatten(fs: seq<Field>): seq<PathEntry>
    decreases SizeFields(fs), 1
  {
    if fs == [] then [] else FlattenField(fs[0]) + Flatten(fs[1..])
  }

  function FlattenField(f: Field): seq<PathEntry>
    decreases Size(f.value), 0
  {
    match f.value
    case JObj(inner) => Lift(f.key, Flatten(inner))
    case _ => [PathEntry([f.key], f.value)]
  }

  function Lift(k: string, es: seq<PathEntry>): (r: seq<PathEntry>)
    ensures |r| == |es| && forall i :: 0 <= i < |es| ==> r[i] == PathEntry([k] + es[i].path, es[i].value)
  {
    if es == [] then [] else [PathEntry([k] + es[0].path, es[0].value)] + Lift(k, es[1..])
  }

  /** The dotted key of each leaf under the prefix segments `ps`. */
  function Render(ps: seq<string>, es: seq<PathEntry>): (r: seq<Field>)
    ensures |r| == |es| && forall i :: 0 <= i < |es| ==> r[i] == Field(Join(ps + es[i].path, '.'), es[i].value)
  {
    if es == [] then [] else [Field(Join(ps + es[0].path, '.'), es[0].value)] + Render(ps, es[1..])
  }

  /** The `path` argument of `toDots` after descending through the keys `ps`. */
  function Prefix(ps: seq<string>): string {
    if ps == [] then "" else ps[0] + "." + Prefix(ps[1..])
  }

  predicate GoodPaths(es: seq<PathEntry>) {
    forall i :: 0 <= i < |es| ==> |es[i].path| >= 1 && NoSep(es[i].path, '.') && es[i].value.JStr?
  }

  predicate DistinctPaths(es: seq<PathEntry>) {
    forall i, j :: 0 <= i < j < |es| ==> es[i].path != es[j].path
  }

  predicate DisjointKeys(a: seq<Field>, b: seq<Field>) {
    forall i, j :: 0 <= i < |a| && 0 <= j < |b| ==> a[i].key != b[j].key
  }

  // ---------------------------------------------------------------------------------------------
  // Facts about paths and prefixes

  lemma AppendAssoc<T>(a: seq<T>, b: seq<T>, c: seq<T>)
    ensures a + b + c == a + (b + c)
  {
  }

  lemma ConsSplit<T>(s: seq<T>)
    requires s != []
    ensures s == [s[0]] + s[1..]
  {
  }

  lemma EmptyAppend<T>(s: seq<T>)
    ensures [] + s == s
  {
  }

  lemma {:induction false} FlattenFacts(fs: seq<Field>)
    requires WellFormed(fs)
    ensures GoodPaths(Flatten(fs)) && DistinctPaths(Flatten(fs))
    ensures forall i :: 0 <= i < |Flatten(fs)| ==> Flatten(fs)[i].path[0] in Keys(fs)
    ensures fs != [] ==> |Flatten(fs)| >= 1
    decreases SizeFields(fs), 1
  {
    if fs != [] {
      FlattenFieldFacts(fs[0]);
      FlattenFacts(fs[1..]);
      var a: seq<PathEntry>, b: seq<PathEntry> := FlattenField(fs[0]), Flatten(fs[1..]);
      assert Flatten(fs) == a + b;
      forall i, j | 0 <= i < j < |a + b| ensures (a + b)[i].path != (a + b)[j].path {
        if i < |a| && j >= |a| {
          assert (a + b)[j] == b[j - |a|];
          assert b[j - |a|].path[0] in Keys(fs[1..]);
        }
      }
      forall i | 0 <= i < |a + b| ensures (a + b)[i].path[0] in Keys(fs) {
        assert Keys(fs) == [fs[0].key] + Keys(fs[1..]);
        if i >= |a| {
          assert (a + b)[i] == b[i - |a|];
        }
      }
    }
  }

  lemma {:induction false} FlattenFieldFacts(f: Field)
    requires '.' !in f.key && WellFormedValue(f.value)
    ensures GoodPaths(FlattenField(f)) && DistinctPaths(FlattenField(f))
    ensures forall i :: 0 <= i < |FlattenField(f)| ==> FlattenField(f)[i].path[0] == f.key
    ensures |FlattenField(f)| >= 1
    decreases Size(f.value), 0
  {
    match f.value
    case JObj(inner) =>
      FlattenFacts(inner);
      var e := Flatten(inner);
      var r := Lift(f.key, e);
      forall i | 0 <= i < |r| ensures |r[i].path| >= 1 && NoSep(r[i].path, '.') && r[i].value.JStr? {
        assert r[i].path == [f.key] + e[i].path;
      }
      forall i, j | 0 <= i < j < |r| ensures r[i].path != r[j].path {
        assert r[i].path[1..] == e[i].path;
        assert r[j].path[1..] == e[j].path;
      }
    case JStr(s) =>
  }

  lemma {:induction false} PrefixJoin(ps: seq<string>, q: seq<string>)
    requires |q| >= 1
    ensures Prefix(ps) + Join(q, '.') == Join(ps + q, '.')
    decreases |ps|
  {
    if ps != [] {
      PrefixJoin(ps[1..], q);
      assert ps + q == [ps[0]] + (ps[1..] + q);
      assert (ps + q)[1..] == ps[1..] + q;
    } else {
      assert ps + q == q;
    }
  }

  lemma {:induction false} PrefixSnoc(ps: seq<string>, k: string)
    ensures Prefix(ps + [k]) == Prefix(ps) + k + "."
    decreases |ps|
  {
    if ps == [] {
      assert ([] + [k])[1..] == [];
    } else {
      assert (ps + [k])[1..] == ps[1..] + [k];
      PrefixSnoc(ps[1..], k);
    }
  }

  lemma RenderLift(ps: seq<string>, k: string, es: seq<PathEntry>)
    ensures Render(ps + [k], es) == Render(ps, Lift(k, es))
  {
    forall i | 0 <= i < |es| ensures Render(ps + [k], es)[i] == Render(ps, Lift(k, es))[i] {
      assert ps + [k] + es[i].path == ps + ([k] + es[i].path);
    }
  }

  lemma {:induction false} RenderAppend(ps: seq<string>, a: seq<PathEntry>, b: seq<PathEntry>)
    ensures Render(ps, a + b) == Render(ps, a) + Render(ps, b)
  {
    assert |Render(ps, a + b)| == |Render(ps, a) + Render(ps, b)|;
    forall i | 0 <= i < |a + b| ensures Render(ps, a + b)[i] == (Render(ps, a) + Render(ps, b))[i] {
      if i >= |a| {
        assert (a + b)[i] == b[i - |a|];
      }
    }
  }

  /** Distinct paths render to distinct keys, because joining dot-free segments is injective. */
  lemma RenderUnique(ps: seq<string>, es: seq<PathEntry>)
    requires NoSep(ps, '.') && GoodPaths(es) && DistinctPaths(es)
    ensures UniqueKeys(Render(ps, es))
  {
    var r := Render(ps, es);
    forall i, j | 0 <= i < j < |r| ensures r[i].key != r[j].key {
      assert es[i].path == (ps + es[i].path)[|ps|..];
      assert es[j].path == (ps + es[j].path)[|ps|..];
      if r[i].key == r[j].key {
        assert NoSep(ps + es[i].path, '.') && NoSep(ps + es[j].path, '.') by {
          forall k | 0 <= k < |ps + es[i].path| ensures '.' !in (ps + es[i].path)[k] {
            if k >= |ps| { assert (ps + es[i].path)[k] == es[i].path[k - |ps|]; }
          }
          forall k | 0 <= k < |ps + es[j].path| ensures '.' !in (ps + es[j].path)[k] {
            if k >= |ps| { assert (ps + es[j].path)[k] == es[j].path[k - |ps|]; }
          }
        }
        JoinInjective(ps + es[i].path, ps + es[j].path, '.');
      }
    }
  }

  /** What is left of a fresh spread after its first field. */
  lemma FreshRest(acc: seq<Field>, extra: seq<Field>)
    requires extra != [] && UniqueKeys(extra) && DisjointKeys(acc, extra)
    ensures extra[0].key !in Keys(acc)
    ensures UniqueKeys(extra[1..]) && DisjointKeys(acc + [extra[0]], extra[1..])
  {
    var f, rest := extra[0], extra[1..];
    forall i | 0 <= i < |acc| ensures Keys(acc)[i] != f.key {
      assert acc[i].key != extra[0].key;
    }
    forall i, j | 0 <= i < j < |rest| ensures rest[i].key != rest[j].key {
      assert rest[i] == extra[i + 1] && rest[j] == extra[j + 1];
    }
    var next := acc + [f];
    forall i, j | 0 <= i < |next| && 0 <= j < |rest| ensures next[i].key != rest[j].key {
      assert rest[j] == extra[j + 1];
      if i < |acc| {
        assert next[i] == acc[i];
      } else {
        assert next[i] == extra[0];
      }
    }
  }

  /** A spread of fresh, distinct keys appends them. */
  lemma {:induction false} SpreadFresh(acc: seq<Field>, extra: seq<Field>)
    requires UniqueKeys(extra) && DisjointKeys(acc, extra)
    ensures Spread(acc, extra) == acc + extra
    decreases |extra|
  {
    if extra != [] {
      var f, rest := extra[0], extra[1..];
      FreshRest(acc, extra);
      var next := acc + [f];
      assert Spread(acc, extra) == Spread(next, rest);
      SpreadFresh(next, rest);
      ConsSplit(extra);
      AppendAssoc(acc, [f], rest);
    }
  }

  // ---------------------------------------------------------------------------------------------
  // toDots renders the flattened paths

  lemma {:induction false} DotsFromFlat(acc: seq<Field>, fs: seq<Field>, ps: seq<string>)
    requires WellFormed(fs) && NoSep(ps, '.')
    requires AllStrings(acc) && KeysStartWith(acc, Prefix(ps))
    requires DisjointKeys(acc, Render(ps, Flatten(fs)))
    ensures DotsFrom(acc, fs, Prefix(ps)) == acc + Render(ps, Flatten(fs))
    decreases SizeFields(fs), 1
  {
    if fs != [] {
      var a: seq<PathEntry>, b: seq<PathEntry> := FlattenField(fs[0]), Flatten(fs[1..]);
      RenderAppend(ps, a, b);
      var ra: seq<Field>, rb: seq<Field> := Render(ps, a), Render(ps, b);
      FlattenFacts(fs);
      RenderUnique(ps, a + b);
      DisjointSplit(acc, ra, rb);
      DotStepFlat(acc, fs[0], ps);
      DotsFromFlat(acc + ra, fs[1..], ps);
      AppendAssoc(acc, ra, rb);
    }
  }

  lemma DisjointSplit(acc: seq<Field>, ra: seq<Field>, rb: seq<Field>)
    requires DisjointKeys(acc, ra + rb) && UniqueKeys(ra + rb)
    ensures DisjointKeys(acc, ra) && DisjointKeys(acc, rb) && DisjointKeys(acc + ra, rb)
  {
    forall i, j | 0 <= i < |acc| && 0 <= j < |ra| ensures acc[i].key != ra[j].key {
      assert (ra + rb)[j] == ra[j];
    }
    forall i, j | 0 <= i < |acc| && 0 <= j < |rb| ensures acc[i].key != rb[j].key {
      assert (ra + rb)[|ra| + j] == rb[j];
    }
    var next := acc + ra;
    forall i, j | 0 <= i < |next| && 0 <= j < |rb| ensures next[i].key != rb[j].key {
      if i >= |acc| {
        assert next[i] == (ra + rb)[i - |acc|];
        assert rb[j] == (ra + rb)[|ra| + j];
      }
    }
  }

  lemma {:induction false} DotStepFlat(acc: seq<Field>, f: Field, ps: seq<string>)
    requires '.' !in f.key && WellFormedValue(f.value) && NoSep(ps, '.')
    requires AllStrings(acc) && KeysStartWith(acc, Prefix(ps))
    requires DisjointKeys(acc, Render(ps, FlattenField(f)))
    ensures DotStep(acc, f, Prefix(ps)) == acc + Render(ps, FlattenField(f))
    decreases Size(f.value), 0
  {
    var p := Prefix(ps);
    match f.value
    case JStr(s) =>
      PrefixJoin(ps, [f.key]);
      assert Join([f.key], '.') == f.key;
      TrimOfTrimmed(s);
      var key := p + f.key;
      assert Render(ps, FlattenField(f)) == [Field(key, JStr(s))];
      assert key !in Keys(acc);
    case JObj(inner) =>
      var ps' := ps + [f.key];
      PrefixSnoc(ps, f.key);
      assert NoSep(ps', '.') by {
        forall k | 0 <= k < |ps'| ensures '.' !in ps'[k] {
          if k < |ps| { assert ps'[k] == ps[k]; }
        }
      }
      DotsFromFlat([], inner, ps');
      assert ToDots(inner, p + f.key + ".") == Render(ps', Flatten(inner));
      RenderLift(ps, f.key, Flatten(inner));
      FlattenFieldFacts(f);
      RenderUnique(ps, FlattenField(f));
      SpreadFresh(acc, Render(ps, FlattenField(f)));
  }

  // ---------------------------------------------------------------------------------------------
  // toObject rebuilds the object from the paths

  function ApplyPaths(acc: Json, es: seq<PathEntry>): Json
    decreases |es|
  {
    if es == [] then acc else ApplyPaths(AssocPath(es[0].path, es[0].value, acc), es[1..])
  }

  lemma {:induction false} ApplyPathsAppend(acc: Json, a: seq<PathEntry>, b: seq<PathEntry>)
    ensures ApplyPaths(acc, a + b) == ApplyPaths(ApplyPaths(acc, a), b)
    decreases |a|
  {
    if a == [] {
      assert a + b == b;
    } else {
      assert (a + b)[0] == a[0];
      assert (a + b)[1..] == a[1..] + b;
      ApplyPathsAppend(AssocPath(a[0].path, a[0].value, acc), a[1..], b);
    }
  }

  lemma {:induction false} AssocAllRender(acc: Json, es: seq<PathEntry>)
    requires GoodPaths(es)
    ensures AssocAll(acc, Render([], es)) == ApplyPaths(acc, es)
    decreases |es|
  {
    if es != [] {
      assert [] + es[0].path == es[0].path;
      SplitJoin(es[0].path, '.');
      assert Render([], es)[1..] == Render([], es[1..]);
      AssocAllRender(AssocPath(es[0].path, es[0].value, acc), es[1..]);
    }
  }

  lemma {:induction false} GetPutLast(pre: seq<Field>, k: string, x: Json, y: Json)
    requires k !in Keys(pre)
    ensures Get(pre + [Field(k, x)], k) == Some(x)
    ensures Put(pre + [Field(k, x)], k, y) == pre + [Field(k, y)]
    decreases |pre|
  {
    if pre != [] {
      var tail := pre[1..];
      assert pre[0].key != k && k !in Keys(tail) by { assert Keys(pre) == [pre[0].key] + Keys(tail); }
      var fx, fy := pre + [Field(k, x)], pre + [Field(k, y)];
      assert fx == [pre[0]] + (tail + [Field(k, x)]) && fx[0] == pre[0] && fx[1..] == tail + [Field(k, x)];
      assert fy == [pre[0]] + (tail + [Field(k, y)]);
      GetPutLast(tail, k, x, y);
    }
  }

  lemma {:induction false} LiftApply(pre: seq<Field>, k: string, x: Json, es: seq<PathEntry>)
    requires k !in Keys(pre) && x.JObj?
    requires forall i :: 0 <= i < |es| ==> |es[i].path| >= 1
    ensures ApplyPaths(JObj(pre + [Field(k, x)]), Lift(k, es)) == JObj(pre + [Field(k, ApplyPaths(x, es))])
    decreases |es|
  {
    if es != [] {
      var path := [k] + es[0].path;
      assert path[1..] == es[0].path;
      GetPutLast(pre, k, x, AssocPath(es[0].path, es[0].value, x));
      var x' := AssocPath(es[0].path, es[0].value, x);
      assert AssocPath(path, es[0].value, JObj(pre + [Field(k, x)])) == JObj(pre + [Field(k, x')]);
      assert Lift(k, es)[1..] == Lift(k, es[1..]);
      LiftApply(pre, k, x', es[1..]);
    }
  }

  lemma {:induction false} ApplyFlatten(pre: seq<Field>, fs: seq<Field>)
    requires WellFormed(fs) && DisjointKeys(pre, fs)
    ensures ApplyPaths(JObj(pre), Flatten(fs)) == JObj(pre + fs)
    decreases SizeFields(fs), 1
  {
    if fs != [] {
      ApplyPathsAppend(JObj(pre), FlattenField(fs[0]), Flatten(fs[1..]));
      assert fs[0].key !in Keys(pre) by {
        forall i | 0 <= i < |pre| ensures Keys(pre)[i] != fs[0].key {
          assert pre[i].key != fs[0].key;
        }
      }
      ApplyFlattenField(pre, fs[0]);
      var pre' := pre + [fs[0]];
      assert DisjointKeys(pre', fs[1..]) by {
        forall i, j | 0 <= i < |pre'| && 0 <= j < |fs[1..]| ensures pre'[i].key != fs[1..][j].key {
          assert fs[1..][j] == fs[j + 1];
          if i == |pre| {
            assert Keys(fs[1..])[j] == fs[1..][j].key;
          }
        }
      }
      ApplyFlatten(pre', fs[1..]);
      ConsSplit(fs);
      AppendAssoc(pre, [fs[0]], fs[1..]);
    }
  }

  lemma {:induction false} ApplyFlattenField(pre: seq<Field>, f: Field)
    requires WellFormedValue(f.value) && f.key !in Keys(pre)
    ensures ApplyPaths(JObj(pre), FlattenField(f)) == JObj(pre + [f])
    decreases Size(f.value), 0
  {
    match f.value
    case JStr(s) =>
      assert Put(pre, f.key, f.value) == pre + [f];
    case JObj(inner) =>
      var e := Flatten(inner);
      FlattenFacts(inner);
      var path := [f.key] + e[0].path;
      assert path[1..] == e[0].path;
      var x0 := AssocPath(e[0].path, e[0].value, JObj([]));
      assert AssocPath(path, e[0].value, JObj(pre)) == JObj(pre + [Field(f.key, x0)]);
      assert Lift(f.key, e)[1..] == Lift(f.key, e[1..]);
      LiftApply(pre, f.key, x0, e[1..]);
      ApplyFlatten([], inner);
      EmptyAppend(inner);
  }

  /** `toObject(toDots(o)) == o` for well-formed nested objects. */
  lemma {:induction false} ToObjectToDots(fs: seq<Field>)
    requires WellFormed(fs)
    ensures AssocAll(JObj([]), ToDots(fs, "")) == JObj(fs)
  {
    FlattenFacts(fs);
    assert Prefix([]) == "";
    DotsFromFlat([], fs, []);
    assert ToDots(fs, "") == Render([], Flatten(fs));
    AssocAllRender(JObj([]), Flatten(fs));
    ApplyFlatten([], fs);
    EmptyAppend(fs);
  }
}
