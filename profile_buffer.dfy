/**
 * The older profile buffer's `beforeFlush`: the batch is sorted newest first and reduced, through a `Map`
 * keyed by `project_id + id`, to one item per key; each kept item is merged field by field with the
 * persisted row of its profile, and once the insert succeeds every batch position is returned.
 */
module ProfileBuffer {
  import opened Wrappers
  import opened JsonValues
  import opened ListStore
  import opened Sorting
  import ObjectUtil
  import LegacyBuffer

  /** A profile as queued or as read back (`IClickhouseProfile`); an absent field is `None`. */
  datatype Profile = Profile(
    id: string,
    projectId: string,
    firstName: Option<string>,
    lastName: Option<string>,
    email: Option<string>,
    avatar: Option<string>,
    properties: Option<seq<Field>>,
    isExternal: bool)

  /** A row as inserted. */
  datatype Row = Row(
    id: string,
    firstName: string,
    lastName: string,
    email: string,
    avatar: string,
    properties: seq<Field>,
    projectId: string,
    createdAt: int,
    isExternal: bool)

  type PItem = QueueItem<Profile>

  /** The key of `queue.sort((a, b) => b.index - a.index)`: newest first. */
  function NewestFirst(item: PItem): int {
    -(item.index as int)
  }

  /** The `Map` key: the string concatenation `project_id + id`. */
  function MapKey(item: PItem): string {
    item.event.projectId + item.event.id
  }

  // ---------------------------------------------------------------------------------------------
  // The dedup `Map`

  /** A `Map` as its entries in insertion order. */
  datatype Entry = Entry(key: string, item: PItem)

  predicate UniqueEntryKeys(m: seq<Entry>) {
    forall i, j :: 0 <= i < j < |m| ==> m[i].key != m[j].key
  }

  function KeyAt(m: seq<Entry>, key: string): (r: Option<nat>)
    ensures r.Some? ==> r.value < |m| && m[r.value].key == key
    ensures r.None? ==> forall i :: 0 <= i < |m| ==> m[i].key != key
  {
    LastKeyIndex(m, (e: Entry) => e.key, key)
  }

  /** `map.set(key, item)`: an existing key keeps its place and takes the new item; a new key goes last. */
  function MapSet(m: seq<Entry>, key: string, item: PItem): seq<Entry> {
    match KeyAt(m, key)
    case Some(i) => m[i := Entry(key, item)]
    case None => m + [Entry(key, item)]
  }

  /** The `forEach` of `set` calls over the first `n` items of the sorted batch. */
  function SetAll(q: seq<PItem>, n: nat): seq<Entry>
    requires n <= |q|
    decreases n
  {
    if n == 0 then [] else MapSet(SetAll(q, n - 1), MapKey(q[n - 1]), q[n - 1])
  }

  /** After `set`, the keys stay unique, entries under other keys stay in place and `key` holds `item`. */
  lemma MapSetFacts(m: seq<Entry>, key: string, item: PItem)
    requires UniqueEntryKeys(m)
    ensures var r := MapSet(m, key, item);
      UniqueEntryKeys(r) && |m| <= |r| &&
      (forall i :: 0 <= i < |m| ==> r[i].key == m[i].key) &&
      (forall i :: 0 <= i < |r| && r[i].key != key ==> i < |m| && r[i] == m[i]) &&
      (forall i :: 0 <= i < |r| && r[i].key == key ==> r[i].item == item) &&
      (exists i :: 0 <= i < |r| && r[i].key == key)
  {
    var r := MapSet(m, key, item);
    match KeyAt(m, key)
    case Some(i0) =>
      assert r[i0].key == key;
    case None =>
      assert r[|m|].key == key;
  }

  /** `p` is the last of the first `n` items with this key. */
  predicate LastWith(q: seq<PItem>, n: nat, p: nat, key: string)
    requires n <= |q|
  {
    p < n && MapKey(q[p]) == key && forall x :: p < x < n ==> MapKey(q[x]) != key
  }

  /** Every entry holds the last item under its key. */
  ghost predicate HoldsLast(q: seq<PItem>, n: nat, m: seq<Entry>)
    requires n <= |q|
  {
    forall i :: 0 <= i < |m| ==> exists p: nat :: LastWith(q, n, p, m[i].key) && m[i].item == q[p]
  }

  /** Every one of the first `n` items has an entry under its key. */
  predicate KeysCovered(q: seq<PItem>, n: nat, m: seq<Entry>)
    requires n <= |q|
  {
    forall p :: 0 <= p < n ==> KeyAt(m, MapKey(q[p])).Some?
  }

  lemma HoldsLastStep(q: seq<PItem>, n: nat, m0: seq<Entry>)
    requires 0 < n <= |q| && UniqueEntryKeys(m0) && HoldsLast(q, n - 1, m0)
    ensures HoldsLast(q, n, MapSet(m0, MapKey(q[n - 1]), q[n - 1]))
  {
    var k := MapKey(q[n - 1]);
    var m := MapSet(m0, k, q[n - 1]);
    MapSetFacts(m0, k, q[n - 1]);
    forall i | 0 <= i < |m| ensures exists p: nat :: LastWith(q, n, p, m[i].key) && m[i].item == q[p] {
      if m[i].key == k {
        assert LastWith(q, n, n - 1, m[i].key);
      } else {
        var p: nat :| LastWith(q, n - 1, p, m0[i].key) && m0[i].item == q[p];
        assert LastWith(q, n, p, m[i].key);
      }
    }
  }

  lemma KeysCoveredStep(q: seq<PItem>, n: nat, m0: seq<Entry>)
    requires 0 < n <= |q| && UniqueEntryKeys(m0) && KeysCovered(q, n - 1, m0)
    ensures KeysCovered(q, n, MapSet(m0, MapKey(q[n - 1]), q[n - 1]))
    ensures UniqueEntryKeys(MapSet(m0, MapKey(q[n - 1]), q[n - 1]))
  {
    var k := MapKey(q[n - 1]);
    var m := MapSet(m0, k, q[n - 1]);
    MapSetFacts(m0, k, q[n - 1]);
    forall p | 0 <= p < n ensures KeyAt(m, MapKey(q[p])).Some? {
      if p < n - 1 {
        var i := KeyAt(m0, MapKey(q[p])).value;
        assert m[i].key == m0[i].key;
      }
    }
  }

  /** One entry per key, holding the last item set under it, and no item left without its key. */
  lemma {:induction false} SetAllFacts(q: seq<PItem>, n: nat)
    requires n <= |q|
    ensures UniqueEntryKeys(SetAll(q, n)) && HoldsLast(q, n, SetAll(q, n)) && KeysCovered(q, n, SetAll(q, n))
    decreases n
  {
    if n > 0 {
      SetAllFacts(q, n - 1);
      SetAllStep(q, n, SetAll(q, n - 1));
    }
  }

  /** One more `set` call keeps the three facts of `SetAllFacts`. */
  lemma SetAllStep(q: seq<PItem>, n: nat, m0: seq<Entry>)
    requires 0 < n <= |q| && m0 == SetAll(q, n - 1)
    requires UniqueEntryKeys(m0) && HoldsLast(q, n - 1, m0) && KeysCovered(q, n - 1, m0)
    ensures UniqueEntryKeys(SetAll(q, n)) && HoldsLast(q, n, SetAll(q, n)) && KeysCovered(q, n, SetAll(q, n))
  {
    KeysCoveredStep(q, n, m0);
    HoldsLastStep(q, n, m0);
  }

  /**
   * On the batch sorted newest first, the item kept under each key is the one with the smallest list
   * position, that is the oldest insert, not the newest.
   */
  lemma KeepsOldest(q: seq<PItem>, i: nat, p: nat)
    requires SortedBy(q, NewestFirst) && i < |SetAll(q, |q|)| && p < |q|
    requires MapKey(q[p]) == SetAll(q, |q|)[i].key
    ensures SetAll(q, |q|)[i].item.index <= q[p].index
  {
    SetAllFacts(q, |q|);
    var m := SetAll(q, |q|);
    var l: nat :| LastWith(q, |q|, l, m[i].key) && m[i].item == q[l];
    if p != l {
      assert p < l;
      assert NewestFirst(q[p]) <= NewestFirst(q[l]);
    }
  }

  /** Two different profiles whose key strings concatenate to the same string share one entry. */
  lemma ConcatenationCollides()
    ensures var a := QueueItem(Profile("c", "ab", None, None, None, None, None, false), 0);
      var b := QueueItem(Profile("bc", "a", None, None, None, None, None, false), 1);
      a.event.id != b.event.id && a.event.projectId != b.event.projectId && |SetAll([a, b], 2)| == 1
  {
    var a := QueueItem(Profile("c", "ab", None, None, None, None, None, false), 0);
    var b := QueueItem(Profile("bc", "a", None, None, None, None, None, false), 1);
    assert MapKey(a) == "abc" && MapKey(b) == "abc";
    assert SetAll([a, b], 1) == [Entry("abc", a)];
  }

  // ---------------------------------------------------------------------------------------------
  // The merge with the persisted row

  /** `incoming ?? persisted ?? ''`: only an absent value falls through; an empty string is kept. */
  function Coalesce(incoming: Option<string>, persisted: Option<string>): string {
    incoming.GetOr(persisted.GetOr(""))
  }

  /** `profiles.find(p => p.id === item.event.id && p.project_id === item.event.project_id)`. */
  function SameProfile(e: Profile): Profile -> bool {
    (p: Profile) => p.id == e.id && p.projectId == e.projectId
  }

  /** `{...(profile?.properties ?? {}), ...(item.event.properties ?? {})}`. */
  function MergedProperties(incoming: Profile, persisted: Option<Profile>): seq<Field> {
    var prior := if persisted.Some? then persisted.value.properties.GetOr([]) else [];
    Spread(Spread([], prior), incoming.properties.GetOr([]))
  }

  /** The row inserted for a kept item, `persisted` being the row found for its profile and `now` the `new Date()`. */
  function MergeRow(incoming: Profile, persisted: Option<Profile>, now: int): (r: Row)
    ensures r.id == incoming.id && r.isExternal == incoming.isExternal && r.createdAt == now
    ensures r.projectId == incoming.projectId
    ensures ObjectUtil.AllStrings(r.properties)
  {
    var p := persisted;
    Row(incoming.id,
        Coalesce(incoming.firstName, if p.Some? then p.value.firstName else None),
        Coalesce(incoming.lastName, if p.Some? then p.value.lastName else None),
        Coalesce(incoming.email, if p.Some? then p.value.email else None),
        Coalesce(incoming.avatar, if p.Some? then p.value.avatar else None),
        ObjectUtil.ToDots(MergedProperties(incoming, persisted), ""),
        incoming.projectId,
        now,
        incoming.isExternal)
  }

  /** The field of the persisted row, if there is one. */
  function PersistedField(persisted: Option<Profile>, field: Profile -> Option<string>): Option<string> {
    if persisted.Some? then field(persisted.value) else None
  }

  /**
   * Field precedence: a present incoming value wins, even an empty string; the persisted value is used
   * only when the incoming one is absent, and `''` when both are.
   */
  lemma MergePrecedence(incoming: Profile, persisted: Option<Profile>, now: int)
    ensures var r := MergeRow(incoming, persisted, now);
      (incoming.firstName.Some? ==> r.firstName == incoming.firstName.value) &&
      (incoming.firstName.None? ==> r.firstName == PersistedField(persisted, (p: Profile) => p.firstName).GetOr("")) &&
      (incoming.lastName.Some? ==> r.lastName == incoming.lastName.value) &&
      (incoming.lastName.None? ==> r.lastName == PersistedField(persisted, (p: Profile) => p.lastName).GetOr("")) &&
      (incoming.email.Some? ==> r.email == incoming.email.value) &&
      (incoming.email.None? ==> r.email == PersistedField(persisted, (p: Profile) => p.email).GetOr("")) &&
      (incoming.avatar.Some? ==> r.avatar == incoming.avatar.value) &&
      (incoming.avatar.None? ==> r.avatar == PersistedField(persisted, (p: Profile) => p.avatar).GetOr(""))
  {
  }

  /** Spreading distinct keys: a key of `extra` takes its value there, any other key keeps its value in `acc`. */
  lemma {:induction false} SpreadGet(acc: seq<Field>, extra: seq<Field>, key: string)
    requires UniqueKeys(extra)
    ensures Get(Spread(acc, extra), key) == if key in Keys(extra) then Get(extra, key) else Get(acc, key)
    decreases |extra|
  {
    if extra != [] {
      var f, rest := extra[0], extra[1..];
      assert UniqueKeys(rest) by {
        forall i, j | 0 <= i < j < |rest| ensures rest[i].key != rest[j].key {
          assert rest[i] == extra[i + 1] && rest[j] == extra[j + 1];
        }
      }
      assert Keys(extra) == [f.key] + Keys(rest);
      SpreadGet(Put(acc, f.key, f.value), rest, key);
      if key == f.key {
        assert key !in Keys(rest) by {
          forall i | 0 <= i < |rest| ensures Keys(rest)[i] != key {
            assert rest[i] == extra[i + 1];
          }
        }
      } else {
        PutOther(acc, f.key, f.value, key);
      }
    }
  }

  /** Before flattening, an incoming property overwrites the persisted one and any other persisted property stays. */
  lemma MergedPropertiesGet(incoming: Profile, persisted: Option<Profile>, key: string)
    requires UniqueKeys(incoming.properties.GetOr([]))
    requires persisted.Some? ==> UniqueKeys(persisted.value.properties.GetOr([]))
    ensures var ip := incoming.properties.GetOr([]);
      var pp := if persisted.Some? then persisted.value.properties.GetOr([]) else [];
      Get(MergedProperties(incoming, persisted), key) == if key in Keys(ip) then Get(ip, key) else Get(pp, key)
  {
    var ip := incoming.properties.GetOr([]);
    var pp := if persisted.Some? then persisted.value.properties.GetOr([]) else [];
    SpreadGet([], pp, key);
    SpreadGet(Spread([], pp), ip, key);
  }

  // ---------------------------------------------------------------------------------------------
  // `beforeFlush`

  /** `Array.from(map.values())`. */
  function Items(m: seq<Entry>): seq<PItem> {
    MapSeq((e: Entry) => e.item, m)
  }

  /** The rows of `cleanedQueue.map(...)`, `persisted` being the rows the query read. */
  function RowsFor(cleaned: seq<PItem>, persisted: seq<Profile>, now: int): seq<Row> {
    MapSeq((it: PItem) => MergeRow(it.event, First(persisted, SameProfile(it.event)), now), cleaned)
  }

  /**
   * The profile `beforeFlush(queue)`: `query` is what the persisted-row query returns or throws and
   * `insert` the store's answer to the rows. On success every position of the sorted batch is returned;
   * on a failure none is, and the sorted batch (serialised by `stringify`) goes to the error list.
   */
  function ProfilesBeforeFlush(queue: seq<PItem>, query: Result<seq<Profile>, Thrown>, insert: seq<Row> -> Option<Thrown>,
                               now: int, stringify: seq<PItem> -> string): LegacyBuffer.Before<Profile>
  {
    var q := SortBy(queue, NewestFirst);
    var cleaned := Items(SetAll(q, |q|));
    var failed := LegacyBuffer.Before(q, [], Some(stringify(q)));
    match query
    case Failure(_) => failed
    case Success(rows) =>
      if insert(RowsFor(cleaned, rows, now)).Some? then failed else LegacyBuffer.Before(q, Indexes(q), None)
  }

  /** The list positions of the batch sorted newest first: the positions of the batch, each as often. */
  lemma NewestFirstIndexes(queue: seq<PItem>)
    ensures var ix := Indexes(SortBy(queue, NewestFirst));
      |ix| == |queue| &&
      (forall p :: 0 <= p < |queue| ==> queue[p].index in ix) &&
      (forall k :: 0 <= k < |ix| ==> exists p :: 0 <= p < |queue| && ix[k] == queue[p].index)
  {
    var q := SortBy(queue, NewestFirst);
    SortByFacts(queue, NewestFirst);
    var mq := multiset(q);
    assert |q| == |queue| by { assert |mq| == |multiset(queue)|; }
    var ix := Indexes(q);
    forall p | 0 <= p < |queue| ensures queue[p].index in ix {
      assert queue[p] in mq;
      var k :| 0 <= k < |q| && q[k] == queue[p];
      assert ix[k] == queue[p].index;
    }
    forall k | 0 <= k < |ix| ensures exists p :: 0 <= p < |queue| && ix[k] == queue[p].index {
      assert q[k] in multiset(queue);
      var p :| 0 <= p < |queue| && queue[p] == q[k];
    }
  }

  /** ... in descending order. */
  lemma NewestFirstOrder(queue: seq<PItem>)
    ensures var ix := Indexes(SortBy(queue, NewestFirst));
      forall k, l :: 0 <= k < l < |ix| ==> ix[k] >= ix[l]
  {
    var q := SortBy(queue, NewestFirst);
    SortByFacts(queue, NewestFirst);
    var ix := Indexes(q);
    forall k, l | 0 <= k < l < |ix| ensures ix[k] >= ix[l] {
      assert NewestFirst(q[k]) <= NewestFirst(q[l]);
    }
  }

  /**
   * A successful profile flush returns the list position of every batch item, duplicates collapsed by the
   * dedup included, newest first; a failed one returns none and files the sorted batch under the error key.
   */
  lemma ProfilesBeforeFlushFacts(queue: seq<PItem>, query: Result<seq<Profile>, Thrown>, insert: seq<Row> -> Option<Thrown>,
                                 now: int, stringify: seq<PItem> -> string)
    ensures var b := ProfilesBeforeFlush(queue, query, insert, now, stringify);
      b.errorEntry.Some? ==> b.indexes == [] && b.errorEntry.value == stringify(SortBy(queue, NewestFirst))
    ensures var b := ProfilesBeforeFlush(queue, query, insert, now, stringify);
      b.errorEntry.None? ==>
        |b.indexes| == |queue| && (forall p :: 0 <= p < |queue| ==> queue[p].index in b.indexes) &&
        (forall k, l :: 0 <= k < l < |b.indexes| ==> b.indexes[k] >= b.indexes[l])
    ensures var b := ProfilesBeforeFlush(queue, query, insert, now, stringify);
      b.errorEntry.None? <==>
        (query.Success? && insert(RowsFor(Items(SetAll(b.data, |b.data|)), query.value, now)).None?)
  {
    NewestFirstIndexes(queue);
    NewestFirstOrder(queue);
  }

  /** The profile `beforeFlush(queue)` on the batch array: the sort in place, the `Map` loop, the merge and the insert. */
  method BeforeFlushProfiles(queue: array<PItem>, query: Result<seq<Profile>, Thrown>, insert: seq<Row> -> Option<Thrown>,
                             now: int, stringify: seq<PItem> -> string)
    returns (indexes: seq<nat>, errorEntry: Option<string>)
    modifies queue
    ensures LegacyBuffer.Before(queue[..], indexes, errorEntry) == ProfilesBeforeFlush(old(queue[..]), query, insert, now, stringify)
  {
    SortInPlace(queue, NewestFirst);
    var m := [];
    for i := 0 to queue.Length
      invariant m == SetAll(queue[..], i)
    {
      m := MapSet(m, MapKey(queue[i]), queue[i]);
    }
    var cleaned := Items(m);
    indexes, errorEntry := [], Some(stringify(queue[..]));
    match query {
      case Failure(_) =>
      case Success(rows) =>
        if insert(RowsFor(cleaned, rows, now)).None? {
          indexes, errorEntry := Indexes(queue[..]), None;
        }
    }
  }
}
