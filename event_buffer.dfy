/**
 * The current event buffer's `processQueue`: the batch is sorted oldest first in place; every event that
 * is not a screen view is written, a server event merged with the last earlier event of its profile when
 * there is one; the screen views are grouped by session and stitched (`SessionStitch`, skipping views
 * without a session id and stamping `__duration_from`). The written items go to the event store in one
 * insert, and their list positions are returned.
 */
module EventBuffer {
  import opened Wrappers
  import opened JsonValues
  import opened ListStore
  import opened Events
  import opened Sorting
  import opened SessionStitch
  import JsStrings

  const PROPERTIES_FROM: string := "__properties_from"

  /** `Array.prototype.findLast`. */
  function FindLast<T>(items: seq<T>, pred: T -> bool): (r: Option<T>)
    ensures r.None? <==> forall k :: 0 <= k < |items| ==> !pred(items[k])
    ensures r.Some? ==>
      exists k ::
        0 <= k < |items| && items[k] == r.value && pred(items[k]) && forall m :: k < m < |items| ==> !pred(items[m])
    decreases |items|
  {
    if items == [] then None
    else if pred(items[|items| - 1]) then Some(items[|items| - 1])
    else FindLast(items[..|items| - 1], pred)
  }

  /** `item.event.profile_id && item.event.device === 'server'`. */
  predicate IsServerEvent(e: Event) {
    e.profileId != "" && e.device == "server"
  }

  /** The `findLast` predicate: the same profile, and the server event's own path (not the candidate's) non-empty. */
  function WithData(item: Item): Item -> bool {
    (c: Item) => c.event.profileId == item.event.profileId && item.event.path != ""
  }

  /** `queue.slice(0, item.index)` on the sorted batch: the raw list position is used as a cut-off. */
  function Candidates(sorted: seq<Item>, item: Item): seq<Item> {
    sorted[..Min(item.index, |sorted|)]
  }

  /** The event a server event is merged with, if any. */
  function MergeSource(sorted: seq<Item>, item: Item): Option<Item> {
    if IsServerEvent(item.event) then FindLast(Candidates(sorted, item), WithData(item)) else None
  }

  /**
   * A server event with a non-empty path has a merge source exactly when an item of its profile comes
   * before the cut-off, and then the source is the last such item.
   */
  lemma MergeSourceFacts(sorted: seq<Item>, item: Item)
    ensures var r := MergeSource(sorted, item);
      r.Some? <==>
        IsServerEvent(item.event) && item.event.path != "" &&
        exists k :: 0 <= k < Min(item.index, |sorted|) && sorted[k].event.profileId == item.event.profileId
    ensures var r := MergeSource(sorted, item);
      r.Some? ==>
        exists k ::
          0 <= k < Min(item.index, |sorted|) && sorted[k] == r.value && r.value.event.profileId == item.event.profileId &&
          forall m :: k < m < Min(item.index, |sorted|) ==> sorted[m].event.profileId != item.event.profileId
  {
    var cs := Candidates(sorted, item);
    assert item.event.path != "" ==>
      forall k :: 0 <= k < |cs| ==> (WithData(item)(cs[k]) <==> sorted[k].event.profileId == item.event.profileId);
  }

  /** What the pass-through `forEach` adds for a non-view: the merged copy, or the item itself. */
  function PassItem(sorted: seq<Item>, item: Item, merge: (Event, Event) -> Event): Item {
    match MergeSource(sorted, item)
    case None => item
    case Some(src) =>
      var e := merge(src.event, item.event);
      QueueItem(e.(properties := Put(e.properties, PROPERTIES_FROM, JStr(src.event.id))), item.index)
  }

  /**
   * A written non-view keeps its list position; it is the item itself unless a merge source exists, and
   * then it is the merge of the two with `__properties_from` set to the source's id and every other
   * property as the merge left it.
   */
  lemma PassItemFacts(sorted: seq<Item>, item: Item, merge: (Event, Event) -> Event)
    ensures var r := PassItem(sorted, item, merge);
      r.index == item.index &&
      (MergeSource(sorted, item).None? ==> r == item) &&
      (MergeSource(sorted, item).Some? ==>
        var src := MergeSource(sorted, item).value;
        var e := merge(src.event, item.event);
        r.event.(properties := []) == e.(properties := []) &&
        Get(r.event.properties, PROPERTIES_FROM) == Some(JStr(src.event.id)) &&
        forall key :: key != PROPERTIES_FROM ==> Get(r.event.properties, key) == Get(e.properties, key))
  {
    if MergeSource(sorted, item).Some? {
      var src := MergeSource(sorted, item).value;
      var e := merge(src.event, item.event);
      forall key | key != PROPERTIES_FROM
        ensures Get(PassItem(sorted, item, merge).event.properties, key) == Get(e.properties, key)
      {
        PutOther(e.properties, PROPERTIES_FROM, JStr(src.event.id), key);
      }
    }
  }

  /** Because the cut-off is a raw list position, a server event can be merged with itself. */
  lemma SelfMerge(e: Event, merge: (Event, Event) -> Event)
    requires IsServerEvent(e) && e.path != ""
    ensures MergeSource([QueueItem(e, 1)], QueueItem(e, 1)) == Some(QueueItem(e, 1))
  {
    var s := [QueueItem(e, 1)];
    assert Candidates(s, s[0]) == s;
  }

  // ---------------------------------------------------------------------------------------------
  // The pass-through loop

  /** The positions of the non-views among the first `n` items of the sorted batch, in order. */
  function NonViews(s: seq<Item>, n: nat): seq<nat>
    requires n <= |s|
    decreases n
  {
    if n == 0 then [] else NonViews(s, n - 1) + (if IsView(s[n - 1]) then [] else [n - 1])
  }

  /** What the pass-through adds for an item of the sorted batch `s`. */
  function PassFn(s: seq<Item>, merge: (Event, Event) -> Event): Item -> Item {
    (item: Item) => PassItem(s, item, merge)
  }

  /** The first `n` iterations of the pass-through `forEach`, `pass` being what it adds for one item. */
  function PassThrough(s: seq<Item>, pass: Item -> Item, n: nat): seq<Item>
    requires n <= |s|
    decreases n
  {
    if n == 0 then []
    else PassThrough(s, pass, n - 1) + (if IsView(s[n - 1]) then [] else [pass(s[n - 1])])
  }

  /** Every position in `nv` is one of the first `n` items of `s` and a non-view. */
  predicate NonViewsIn(s: seq<Item>, n: nat, nv: seq<nat>)
    requires n <= |s|
  {
    forall j :: 0 <= j < |nv| ==> nv[j] < n && !IsView(s[nv[j]])
  }

  /** `NonViews` holds non-views only, in increasing order. */
  lemma {:induction false} NonViewsOrdered(s: seq<Item>, n: nat)
    requires n <= |s|
    ensures NonViewsIn(s, n, NonViews(s, n)) && Increasing(NonViews(s, n))
    decreases n
  {
    if n > 0 {
      NonViewsOrdered(s, n - 1);
      var nv0, nv := NonViews(s, n - 1), NonViews(s, n);
      assert NonViewsIn(s, n - 1, nv0);
      if IsView(s[n - 1]) {
        assert nv == nv0;
      } else {
        assert nv == nv0 + [n - 1];
      }
    }
  }

  /** `NonViews` misses no non-view. */
  lemma {:induction false} NonViewsCover(s: seq<Item>, n: nat)
    requires n <= |s|
    ensures forall p :: 0 <= p < n && !IsView(s[p]) ==> p in NonViews(s, n)
    decreases n
  {
    if n > 0 {
      NonViewsCover(s, n - 1);
    }
  }

  /** `r` holds `pass` of the item at each position of `nv`, in that order. */
  predicate PassedAt(s: seq<Item>, pass: Item -> Item, nv: seq<nat>, r: seq<Item>) {
    |r| == |nv| && forall j :: 0 <= j < |nv| ==> nv[j] < |s| && r[j] == pass(s[nv[j]])
  }

  /** The pass-through adds one item per non-view, in batch order, and no other. */
  lemma {:induction false} PassThroughFacts(s: seq<Item>, pass: Item -> Item, n: nat)
    requires n <= |s|
    ensures PassedAt(s, pass, NonViews(s, n), PassThrough(s, pass, n))
    decreases n
  {
    if n > 0 {
      PassThroughFacts(s, pass, n - 1);
      var nv0, nv := NonViews(s, n - 1), NonViews(s, n);
      var r0, r := PassThrough(s, pass, n - 1), PassThrough(s, pass, n);
      assert PassedAt(s, pass, nv0, r0);
      if IsView(s[n - 1]) {
        assert nv == nv0 && r == r0;
      } else {
        assert nv == nv0 + [n - 1] && r == r0 + [pass(s[n - 1])];
      }
    }
  }

  // ---------------------------------------------------------------------------------------------
  // The reference

  /** The batch array as `processQueue` leaves it, what it writes, and where in the array each written item comes from. */
  datatype Outcome = Outcome(data: seq<Item>, written: seq<Item>, from: seq<nat>)

  function Sorted(queue: seq<Item>): seq<Item> {
    SortBy(queue, ByCreatedAt)
  }

  function Process(queue: seq<Item>, merge: (Event, Event) -> Event): (o: Outcome)
    ensures |o.data| == |queue|
  {
    var sorted := Sorted(queue);
    SortByFacts(queue, ByCreatedAt);
    assert |sorted| == |queue| by { assert |multiset(sorted)| == |multiset(queue)|; }
    var st := Stitched(sorted, true, true);
    Outcome(st.data, PassThrough(sorted, PassFn(sorted, merge), |sorted|) + st.written, NonViews(sorted, |sorted|) + st.from)
  }

  /**
   * `processQueue` as the generic flush sees it: the batch array it leaves behind, and either the raw list
   * positions of the written items or the error the store insert threw. `insert` is the store's answer to
   * the rows it is given.
   */
  function ProcessQueueResult(queue: seq<Item>, merge: (Event, Event) -> Event, insert: seq<Event> -> Option<Thrown>): Processed<Event> {
    var o := Process(queue, merge);
    Processed(o.data, match insert(ListStore.Events(o.written)) case Some(e) => Failure(e) case None => Success(Indexes(o.written)))
  }

  // ---------------------------------------------------------------------------------------------
  // What the reference promises

  predicate Disjoint(a: seq<nat>, b: seq<nat>) {
    forall j, k :: 0 <= j < |a| && 0 <= k < |b| ==> a[j] != b[k]
  }

  lemma NoDupAppend(a: seq<nat>, b: seq<nat>)
    requires NoDup(a) && NoDup(b) && Disjoint(a, b)
    ensures NoDup(a + b)
  {
    forall j, k | 0 <= j < k < |a + b| ensures (a + b)[j] != (a + b)[k] {
      if k < |a| {
      } else if j >= |a| {
        assert (a + b)[j] == b[j - |a|] && (a + b)[k] == b[k - |a|];
      } else {
        assert (a + b)[k] == b[k - |a|];
      }
    }
  }

  /** A sequence of distinct positions below `n` has at most `n` entries. */
  lemma {:induction false} NoDupBound(xs: seq<nat>, n: nat)
    requires NoDup(xs) && forall j :: 0 <= j < |xs| ==> xs[j] < n
    ensures |xs| <= n
    decreases n
  {
    if xs != [] {
      assert xs[0] < n;
      var rest := RemoveValue(xs, n - 1);
      NoDupBound(rest, n - 1);
    }
  }

  /** `xs` without the value `v`, which it holds at most once. */
  function RemoveValue(xs: seq<nat>, v: nat): (r: seq<nat>)
    requires NoDup(xs)
    ensures NoDup(r) && |r| >= |xs| - 1
    ensures forall j :: 0 <= j < |r| ==> r[j] != v && r[j] in xs
    decreases |xs|
  {
    if xs == [] then []
    else if xs[0] == v then
      assert forall j :: 0 <= j < |xs[1..]| ==> xs[1..][j] != v by {
        forall j | 0 <= j < |xs[1..]| ensures xs[1..][j] != v { assert xs[1..][j] == xs[j + 1]; }
      }
      xs[1..]
    else
      var rest := RemoveValue(xs[1..], v);
      assert forall j :: 0 <= j < |rest| ==> rest[j] != xs[0] by {
        forall j | 0 <= j < |rest| ensures rest[j] != xs[0] {
          var k :| 0 <= k < |xs[1..]| && xs[1..][k] == rest[j];
          assert xs[k + 1] == rest[j];
        }
      }
      [xs[0]] + rest
  }

  /**
   * A flush outcome on the sorted batch `s` as the reference definitions describe it, `pass` being what the
   * pass-through writes for a non-view: the array ends as the stitching leaves it; the written items are one
   * per array position, so at most one per batch item: every non-view, as `pass` makes it, and exactly the
   * screen views the stitching writes, as it writes them; every written item keeps the list position of the
   * array item it comes from.
   */
  predicate WriteSpec(s: seq<Item>, pass: Item -> Item, skipEmpty: bool, markFrom: bool, o: Outcome) {
    |o.data| == |s| &&
    (forall p :: 0 <= p < |s| ==> o.data[p] == FinalItem(s, p, skipEmpty, markFrom)) &&
    |o.written| == |o.from| <= |s| && NoDup(o.from) &&
    (forall j :: 0 <= j < |o.from| ==> o.from[j] < |s| && o.written[j].index == s[o.from[j]].index) &&
    (forall j :: 0 <= j < |o.from| && !IsView(s[o.from[j]]) ==> o.written[j] == pass(s[o.from[j]])) &&
    (forall j :: 0 <= j < |o.from| && IsView(s[o.from[j]]) ==>
      ViewWritten(s, o.from[j], skipEmpty) && o.written[j] == WrittenView(s, o.from[j], markFrom)) &&
    (forall p :: 0 <= p < |s| ==> (p in o.from <==> !IsView(s[p]) || ViewWritten(s, p, skipEmpty)))
  }

  /** A `processQueue` outcome: views without a session id are skipped, successors are marked, non-views may be merged. */
  predicate OutcomeSpec(s: seq<Item>, merge: (Event, Event) -> Event, o: Outcome) {
    WriteSpec(s, PassFn(s, merge), true, true, o)
  }

  /** The facts `WriteSpec` states about the `j`th written item and the batch position it comes from. */
  predicate PairedAt(s: seq<Item>, pass: Item -> Item, skipEmpty: bool, markFrom: bool, from: seq<nat>, written: seq<Item>, j: nat)
    requires j < |from| && j < |written|
  {
    from[j] < |s| && written[j].index == s[from[j]].index &&
    (!IsView(s[from[j]]) ==> written[j] == pass(s[from[j]])) &&
    (IsView(s[from[j]]) ==> ViewWritten(s, from[j], skipEmpty) && written[j] == WrittenView(s, from[j], markFrom))
  }

  /** A pass-through item of the joined outcome is paired with its non-view. */
  lemma JoinPassedAt(s: seq<Item>, pass: Item -> Item, skipEmpty: bool, markFrom: bool, nv: seq<nat>, passed: seq<Item>, st: Batch, j: nat)
    requires forall p :: 0 <= p < |s| ==> pass(s[p]).index == s[p].index
    requires NonViewsIn(s, |s|, nv)
    requires PassedAt(s, pass, nv, passed)
    requires |st.written| == |st.from| && j < |nv|
    ensures PairedAt(s, pass, skipEmpty, markFrom, nv + st.from, passed + st.written, j)
  {
    assert (nv + st.from)[j] == nv[j] && (passed + st.written)[j] == passed[j];
  }

  /** A stitched view of the joined outcome is paired with its batch position. */
  lemma JoinStitchedAt(s: seq<Item>, pass: Item -> Item, skipEmpty: bool, markFrom: bool, nv: seq<nat>, passed: seq<Item>, st: Batch, j: nat)
    requires StitchedSpec(s, skipEmpty, markFrom, st)
    requires |passed| == |nv| <= j < |nv| + |st.from|
    ensures PairedAt(s, pass, skipEmpty, markFrom, nv + st.from, passed + st.written, j)
  {
    var i := j - |nv|;
    assert (nv + st.from)[j] == st.from[i] && (passed + st.written)[j] == st.written[i];
  }

  /** Each written item of the joined outcome comes from the batch position it is paired with. */
  lemma JoinPairs(s: seq<Item>, pass: Item -> Item, skipEmpty: bool, markFrom: bool, nv: seq<nat>, passed: seq<Item>, st: Batch)
    requires forall p :: 0 <= p < |s| ==> pass(s[p]).index == s[p].index
    requires NonViewsIn(s, |s|, nv)
    requires PassedAt(s, pass, nv, passed)
    requires StitchedSpec(s, skipEmpty, markFrom, st)
    ensures |nv + st.from| == |passed + st.written|
    ensures forall j :: 0 <= j < |nv + st.from| ==> PairedAt(s, pass, skipEmpty, markFrom, nv + st.from, passed + st.written, j)
  {
    forall j | 0 <= j < |nv + st.from| ensures PairedAt(s, pass, skipEmpty, markFrom, nv + st.from, passed + st.written, j) {
      if j < |nv| {
        JoinPassedAt(s, pass, skipEmpty, markFrom, nv, passed, st, j);
      } else {
        JoinStitchedAt(s, pass, skipEmpty, markFrom, nv, passed, st, j);
      }
    }
  }

  /** The joined outcome writes exactly the non-views and the views `ViewWritten` selects. */
  lemma JoinMembers(s: seq<Item>, skipEmpty: bool, markFrom: bool, nv: seq<nat>, st: Batch)
    requires NonViewsIn(s, |s|, nv)
    requires forall p :: 0 <= p < |s| && !IsView(s[p]) ==> p in nv
    requires StitchedSpec(s, skipEmpty, markFrom, st)
    ensures forall p :: 0 <= p < |s| ==> (p in nv + st.from <==> !IsView(s[p]) || ViewWritten(s, p, skipEmpty))
  {
    forall p | 0 <= p < |s| ensures p in nv + st.from <==> !IsView(s[p]) || ViewWritten(s, p, skipEmpty) {
      if p in nv {
        var j :| 0 <= j < |nv| && nv[j] == p;
      } else if p in st.from {
        var j :| 0 <= j < |st.from| && st.from[j] == p;
      }
    }
  }

  /** The pass-through items followed by the stitched views. */
  lemma JoinSpec(s: seq<Item>, pass: Item -> Item, skipEmpty: bool, markFrom: bool, nv: seq<nat>, passed: seq<Item>, st: Batch)
    requires forall p :: 0 <= p < |s| ==> pass(s[p]).index == s[p].index
    requires Increasing(nv) && NonViewsIn(s, |s|, nv)
    requires forall p :: 0 <= p < |s| && !IsView(s[p]) ==> p in nv
    requires PassedAt(s, pass, nv, passed)
    requires StitchedSpec(s, skipEmpty, markFrom, st)
    ensures WriteSpec(s, pass, skipEmpty, markFrom, Outcome(st.data, passed + st.written, nv + st.from))
  {
    var o := Outcome(st.data, passed + st.written, nv + st.from);
    assert Disjoint(nv, st.from);
    NoDupAppend(nv, st.from);
    NoDupBound(o.from, |s|);
    JoinPairs(s, pass, skipEmpty, markFrom, nv, passed, st);
    forall j | 0 <= j < |o.from|
      ensures o.from[j] < |s| && o.written[j].index == s[o.from[j]].index
      ensures !IsView(s[o.from[j]]) ==> o.written[j] == pass(s[o.from[j]])
      ensures IsView(s[o.from[j]]) ==> ViewWritten(s, o.from[j], skipEmpty) && o.written[j] == WrittenView(s, o.from[j], markFrom)
    {
      assert PairedAt(s, pass, skipEmpty, markFrom, o.from, o.written, j);
    }
    JoinMembers(s, skipEmpty, markFrom, nv, st);
  }

  /** `processQueue` sorts the batch oldest first, as a permutation, and then does what `OutcomeSpec` says. */
  lemma ProcessFacts(queue: seq<Item>, merge: (Event, Event) -> Event)
    ensures |Sorted(queue)| == |queue| && SortedBy(Sorted(queue), ByCreatedAt) && multiset(Sorted(queue)) == multiset(queue)
    ensures OutcomeSpec(Sorted(queue), merge, Process(queue, merge))
  {
    var s := Sorted(queue);
    SortByFacts(queue, ByCreatedAt);
    assert |s| == |queue| by { assert |multiset(s)| == |multiset(queue)|; }
    StitchedFacts(s, true, true);
    NonViewsOrdered(s, |s|);
    NonViewsCover(s, |s|);
    PassThroughFacts(s, PassFn(s, merge), |s|);
    forall p | 0 <= p < |s| ensures PassFn(s, merge)(s[p]).index == s[p].index {
      PassItemFacts(s, s[p], merge);
    }
    JoinSpec(s, PassFn(s, merge), true, true, NonViews(s, |s|), PassThrough(s, PassFn(s, merge), |s|), Stitched(s, true, true));
  }

  /** On a batch sorted oldest first, every duration written is at least 0, and the view marks its successor's id. */
  lemma DurationsNonNegative(s: seq<Item>, merge: (Event, Event) -> Event, o: Outcome, j: nat)
    requires SortedBy(s, ByCreatedAt) && OutcomeSpec(s, merge, o) && j < |o.from|
    ensures o.from[j] < |s|
    ensures IsView(s[o.from[j]]) && NextInSession(s, o.from[j]).Some? ==>
      var q := NextInSession(s, o.from[j]).value;
      o.written[j].event.duration == s[q].event.createdAt - s[o.from[j]].event.createdAt >= 0 &&
      Get(o.written[j].event.properties, DURATION_FROM) == Some(JStr(s[q].event.id))
  {
  }

  /** A screen view without a session id is never written. */
  lemma EmptySessionHeldBack(s: seq<Item>, merge: (Event, Event) -> Event, o: Outcome, p: nat)
    requires OutcomeSpec(s, merge, o)
    requires p < |s| && IsView(s[p]) && s[p].event.sessionId == ""
    ensures p !in o.from
  {
  }

  /** The last screen view of a session is written, unchanged, exactly when the batch holds that session's end. */
  lemma LastViewIffSessionEnd(s: seq<Item>, merge: (Event, Event) -> Event, o: Outcome, p: nat)
    requires OutcomeSpec(s, merge, o)
    requires p < |s| && IsView(s[p]) && s[p].event.sessionId != "" && NextInSession(s, p).None?
    ensures p in o.from <==> HasSessionEnd(s, s[p].event.sessionId)
    ensures WrittenView(s, p, true) == s[p]
  {
  }

  /** `ixs` holds list positions of items of `s` only, and that of every non-view and every view the stitching writes. */
  predicate WrittenPositions(s: seq<Item>, skipEmpty: bool, ixs: seq<nat>) {
    (forall k :: 0 <= k < |ixs| ==> exists p :: 0 <= p < |s| && ixs[k] == s[p].index) &&
    (forall p :: 0 <= p < |s| && (!IsView(s[p]) || ViewWritten(s, p, skipEmpty)) ==> s[p].index in ixs)
  }

  /** The list positions of the written items are those of `WrittenPositions`, at most one per batch item. */
  lemma WrittenIndexes(s: seq<Item>, pass: Item -> Item, skipEmpty: bool, markFrom: bool, o: Outcome)
    requires WriteSpec(s, pass, skipEmpty, markFrom, o)
    ensures |Indexes(o.written)| <= |s| && WrittenPositions(s, skipEmpty, Indexes(o.written))
  {
    var ix := Indexes(o.written);
    forall k | 0 <= k < |ix| ensures exists p :: 0 <= p < |s| && ix[k] == s[p].index {
      assert ix[k] == s[o.from[k]].index;
    }
    forall p | 0 <= p < |s| && (!IsView(s[p]) || ViewWritten(s, p, skipEmpty)) ensures s[p].index in ix {
      var j :| 0 <= j < |o.from| && o.from[j] == p;
      assert ix[j] == s[p].index;
    }
  }

  /**
   * What `processQueue` resolves to: the list positions of every non-view and of every view the stitching
   * writes, at most one per batch item, when the store insert succeeds; the insert's error when it throws.
   */
  lemma ProcessQueueResultFacts(queue: seq<Item>, merge: (Event, Event) -> Event, insert: seq<Event> -> Option<Thrown>)
    ensures var r := ProcessQueueResult(queue, merge, insert); var o := Process(queue, merge);
      r.data == o.data &&
      (r.outcome.Failure? <==> insert(ListStore.Events(o.written)).Some?) &&
      (r.outcome.Failure? ==> r.outcome.error == insert(ListStore.Events(o.written)).value) &&
      (r.outcome.Success? ==>
        |r.outcome.value| <= |queue| && WrittenPositions(Sorted(queue), true, r.outcome.value))
  {
    ProcessFacts(queue, merge);
    WrittenIndexes(Sorted(queue), PassFn(Sorted(queue), merge), true, true, Process(queue, merge));
  }

  // ---------------------------------------------------------------------------------------------
  // The method

  /** The sort key of `sortOldestFirst`, applied to positions of the sorted array. */
  function PosKey(s: seq<Item>): nat -> int {
    (p: nat) => if p < |s| then s[p].event.createdAt else 0
  }

  /** The `slice().sort(sortOldestFirst)` of a session's views is a no-op: they are taken from the sorted batch in order. */
  lemma ViewsInOrder(s: seq<Item>, members: seq<nat>)
    requires SortedBy(s, ByCreatedAt) && InRange(members, |s|) && Increasing(members)
    ensures SortBy(members, PosKey(s)) == members
  {
    assert SortedBy(members, PosKey(s)) by {
      forall i, j | 0 <= i < j < |members| ensures PosKey(s)(members[i]) <= PosKey(s)(members[j]) {
        assert ByCreatedAt(s[members[i]]) <= ByCreatedAt(s[members[j]]);
      }
    }
    SortBySortedInput(members, PosKey(s));
  }

  lemma GroupsIncreasing(s: seq<Item>, i: nat)
    requires i < |Groups(s, true)|
    ensures Increasing(Groups(s, true)[i].members)
  {
    GroupsFacts(s, |s|, true);
  }

  lemma MembersStep(b: Batch, m: seq<nat>, k: nat, hasEnd: bool, markFrom: bool)
    requires k < |m| && InRange(m, |b.data|)
    ensures StitchMembers(b, m, k + 1, hasEnd, markFrom) == StitchStep(StitchMembers(b, m, k, hasEnd, markFrom), m, k, hasEnd, markFrom)
  {
  }

  /** An iteration over a view with a successor, as the loop body performs it. */
  lemma MarkStep(b: Batch, m: seq<nat>, k: nat, hasEnd: bool)
    requires k + 1 < |m| && InRange(m, |b.data|)
    ensures var p, next := m[k], b.data[m[k + 1]];
      StitchStep(b, m, k, hasEnd, true) ==
        Batch(b.data[p := Mark(b.data[p], next.event.id)],
              b.written + [Stamp(b.data[p], next.event.id, next.event.createdAt, true)], b.from + [p])
  {
  }

  lemma SnocAssoc<T>(a: seq<T>, b: seq<T>, x: T)
    ensures (a + b) + [x] == a + (b + [x])
  {
  }

  /** An iteration over the last view of a session, as the loop body performs it. */
  lemma LastStep(b: Batch, m: seq<nat>, k: nat, hasEnd: bool, markFrom: bool)
    requires k + 1 == |m| && InRange(m, |b.data|)
    ensures StitchStep(b, m, k, hasEnd, markFrom) ==
      if hasEnd then Batch(b.data, b.written + [b.data[m[k]]], b.from + [m[k]]) else b
  {
  }

  /** The pass-through `forEach` over the sorted batch array. */
  method PassThroughLoop(queue: array<Item>, merge: (Event, Event) -> Event) returns (written: seq<Item>)
    ensures written == PassThrough(queue[..], PassFn(queue[..], merge), queue.Length)
  {
    written := [];
    for i := 0 to queue.Length
      invariant written == PassThrough(queue[..], PassFn(queue[..], merge), i)
    {
      var item := queue[i];
      if !IsView(item) {
        written := written + [PassItem(queue[..], item, merge)];
      }
    }
  }

  /**
   * The `forEach` over one session's views, `ordered` being their sorted copy and `screenViews` the group
   * itself: the array items and the write set end as the stitching reference says, from the state `prev`
   * the earlier sessions left. `pass` is what the write set held before any session.
   */
  method StitchSession(queue: array<Item>, screenViews: seq<nat>, ordered: seq<nat>, hasSessionEnd: bool,
                       ghost prev: Batch, ghost pass: seq<Item>, written0: seq<Item>)
    returns (written: seq<Item>)
    requires ordered == screenViews && InRange(screenViews, |prev.data|)
    requires queue[..] == prev.data && written0 == pass + prev.written
    modifies queue
    ensures var r := StitchMembers(prev, screenViews, |screenViews|, hasSessionEnd, true);
      queue[..] == r.data && written == pass + r.written
  {
    written := written0;
    assert |ordered| == |screenViews|;
    for k := 0 to |ordered|
      invariant queue[..] == StitchMembers(prev, screenViews, k, hasSessionEnd, true).data
      invariant written == pass + StitchMembers(prev, screenViews, k, hasSessionEnd, true).written
    {
      written := StitchView(queue, screenViews, k, hasSessionEnd, prev, pass, written);
    }
  }

  /** One iteration over a session's views, the `k`-th of which is stamped (and marked) or, if last, maybe written as is. */
  method StitchView(queue: array<Item>, screenViews: seq<nat>, k: nat, hasSessionEnd: bool,
                    ghost prev: Batch, ghost pass: seq<Item>, written0: seq<Item>)
    returns (written: seq<Item>)
    requires k < |screenViews| && InRange(screenViews, |prev.data|)
    requires queue[..] == StitchMembers(prev, screenViews, k, hasSessionEnd, true).data
    requires written0 == pass + StitchMembers(prev, screenViews, k, hasSessionEnd, true).written
    modifies queue
    ensures queue[..] == StitchMembers(prev, screenViews, k + 1, hasSessionEnd, true).data
    ensures written == pass + StitchMembers(prev, screenViews, k + 1, hasSessionEnd, true).written
  {
    ghost var cur := StitchMembers(prev, screenViews, k, hasSessionEnd, true);
    MembersStep(prev, screenViews, k, hasSessionEnd, true);
    written := written0;
    var item := queue[screenViews[k]];
    if k + 1 < |screenViews| {
      var next := queue[screenViews[k + 1]];
      var stamped := Stamp(item, next.event.id, next.event.createdAt, true);
      SnocAssoc(pass, cur.written, stamped);
      written := written + [stamped];
      queue[screenViews[k]] := Mark(item, next.event.id);
      MarkStep(cur, screenViews, k, hasSessionEnd);
    } else {
      LastStep(cur, screenViews, k, hasSessionEnd, true);
      if hasSessionEnd {
        SnocAssoc(pass, cur.written, item);
        written := written + [item];
      }
    }
  }

  /**
   * `processQueue(queue)` on the batch array: sorts it in place, adds the pass-through items, stitches each
   * session's views (stamping the array items) and inserts the written events. The array ends and the
   * result is as the reference says.
   */
  method ProcessQueue(queue: array<Item>, merge: (Event, Event) -> Event, insert: seq<Event> -> Option<Thrown>)
    returns (outcome: Result<seq<nat>, Thrown>)
    modifies queue
    ensures var r := ProcessQueueResult(old(queue[..]), merge, insert);
      queue[..] == r.data && outcome == r.outcome
  {
    ghost var input := queue[..];
    SortInPlace(queue, ByCreatedAt);
    var sorted := queue[..];
    SortByFacts(input, ByCreatedAt);
    var written := PassThroughLoop(queue, merge);
    written := StitchAll(queue, sorted, written);
    ProcessIs(input, merge);
    match insert(ListStore.Events(written)) {
      case Some(e) => outcome := Failure(e);
      case None => outcome := Success(Indexes(written));
    }
  }

  /**
   * The loop over the sessions of the sorted batch `sorted`, which the array holds on entry; `pass` is the
   * write set the pass-through built.
   */
  method StitchAll(queue: array<Item>, sorted: seq<Item>, pass: seq<Item>) returns (written: seq<Item>)
    requires queue[..] == sorted && SortedBy(sorted, ByCreatedAt)
    modifies queue
    ensures var gs := Groups(sorted, true); var r := StitchGroups(Batch(sorted, [], []), gs, |gs|, true);
      queue[..] == r.data && written == pass + r.written
  {
    written := pass;
    var gs := Groups(sorted, true);
    for g := 0 to |gs|
      invariant var r := StitchGroups(Batch(sorted, [], []), gs, g, true);
        queue[..] == r.data && written == pass + r.written
    {
      written := StitchGroup(queue, sorted, gs, g, pass, written);
    }
  }

  /** One iteration of the loop over the sessions: the views of session `gs[g]`. */
  method StitchGroup(queue: array<Item>, sorted: seq<Item>, gs: seq<Group>, g: nat, ghost pass: seq<Item>,
                     written0: seq<Item>) returns (written: seq<Item>)
    requires SortedBy(sorted, ByCreatedAt) && gs == Groups(sorted, true) && g < |gs|
    requires var r := StitchGroups(Batch(sorted, [], []), gs, g, true);
      queue[..] == r.data && written0 == pass + r.written
    modifies queue
    ensures var r := StitchGroups(Batch(sorted, [], []), gs, g + 1, true);
      queue[..] == r.data && written == pass + r.written
  {
    ghost var b0 := Batch(sorted, [], []);
    ghost var cur := StitchGroups(b0, gs, g, true);
    GroupsStep(b0, gs, g, true);
    var screenViews := gs[g].members;
    var hasSessionEnd := HasSessionEnd(queue[..], gs[g].sid);
    GroupsIncreasing(sorted, g);
    ViewsInOrder(sorted, screenViews);
    var ordered := SortBy(screenViews, PosKey(sorted));
    written := StitchSession(queue, screenViews, ordered, hasSessionEnd, cur, pass, written0);
  }

  /** One iteration of the loop over the sessions. */
  lemma GroupsStep(b: Batch, gs: seq<Group>, g: nat, markFrom: bool)
    requires g < |gs| && AllInRange(gs, |b.data|)
    ensures var prev := StitchGroups(b, gs, g, markFrom);
      InRange(gs[g].members, |prev.data|) &&
      StitchGroups(b, gs, g + 1, markFrom) ==
        StitchMembers(prev, gs[g].members, |gs[g].members|, HasSessionEnd(prev.data, gs[g].sid), markFrom)
  {
  }

  /** The reference unfolded into the pieces the method computes. */
  lemma ProcessIs(queue: seq<Item>, merge: (Event, Event) -> Event)
    ensures var s := Sorted(queue); var gs := Groups(s, true);
      var st := StitchGroups(Batch(s, [], []), gs, |gs|, true);
      Process(queue, merge).data == st.data &&
      Process(queue, merge).written == PassThrough(s, PassFn(s, merge), |s|) + st.written
  {
  }

  // ---------------------------------------------------------------------------------------------
  // The completion hook

  /** Seconds a `live:event:<project_id>:<profile_id>` key is meant to be kept. */
  const LIVE_SECONDS: int := 60 * 5

  function LiveKey(e: Event): string {
    "live:event:" + e.projectId + ":" + e.profileId
  }

  /**
   * The calls the hook queues, as written: `multi.setex(key, '', 60 * 5)`. ioredis's `setex` takes the key,
   * the seconds and the value, so `''` goes out as the seconds and `300` as the value.
   */
  function LiveCommands(events: seq<Event>): (cs: seq<SetEx>)
    ensures |cs| == |events|
    ensures forall k :: 0 <= k < |cs| ==> cs[k] == SetEx(LiveKey(events[k]), "", JsStrings.NatToString(LIVE_SECONDS))
  {
    if events == [] then [] else [SetEx(LiveKey(events[0]), "", JsStrings.NatToString(LIVE_SECONDS))] + LiveCommands(events[1..])
  }

  /** The calls as evidently meant: each live key kept for `LIVE_SECONDS`, with the empty string as its value. */
  function IntendedLiveCommands(events: seq<Event>): (cs: seq<SetEx>)
    ensures |cs| == |events|
    ensures forall k :: 0 <= k < |cs| ==> cs[k] == SetEx(LiveKey(events[k]), JsStrings.NatToString(LIVE_SECONDS), "")
  {
    if events == [] then [] else [SetEx(LiveKey(events[0]), JsStrings.NatToString(LIVE_SECONDS), "")] + IntendedLiveCommands(events[1..])
  }

  /** As written, Redis refuses every queued `SETEX`: no key is written and every reply is an error. */
  lemma {:induction false} LiveKeysNeverSet(held: map<string, Held>, events: seq<Event>)
    ensures var r := ExecAll(held, LiveCommands(events));
      r.held == held && forall k :: 0 <= k < |r.replies| ==> r.replies[k] == ReplyError(NOT_AN_INTEGER)
    decreases |events|
  {
    if events != [] {
      assert LiveCommands(events)[1..] == LiveCommands(events[1..]);
      LiveKeysNeverSet(held, events[1..]);
    }
  }

  lemma SecondsArgument()
    ensures ParseInteger(JsStrings.NatToString(LIVE_SECONDS)) == Some(LIVE_SECONDS)
  {
    assert JsStrings.NatToString(3) == "3";
    assert JsStrings.NatToString(30) == "30";
    var s := JsStrings.NatToString(300);
    assert s == "300";
    assert s[..2] == "30" && s[..2][..1] == "3" && s[..2][..1][..0] == "";
    assert DigitsValue(s[..2][..1]) == 3;
    assert DigitsValue(s[..2]) == 30;
    assert Natural(s);
  }

  /** Every event's live key holds `''` for `LIVE_SECONDS`. */
  predicate LiveKeysHeld(h: map<string, Held>, events: seq<Event>) {
    forall k :: 0 <= k < |events| ==> LiveKey(events[k]) in h && h[LiveKey(events[k])] == Held("", LIVE_SECONDS)
  }

  ghost predicate IsLiveKeyOf(key: string, events: seq<Event>) {
    exists k :: 0 <= k < |events| && key == LiveKey(events[k])
  }

  /** Every key that is no event's live key is the same in `before` and `after`. */
  ghost predicate OthersKept(before: map<string, Held>, after: map<string, Held>, events: seq<Event>) {
    forall key :: !IsLiveKeyOf(key, events) ==>
      (key in after <==> key in before) && (key in before ==> after[key] == before[key])
  }

  predicate AllOk(replies: seq<Reply>) {
    forall k :: 0 <= k < |replies| ==> replies[k] == Ok
  }

  /**
   * With the seconds and the value in their places, every saved event's live key holds `''` for
   * `LIVE_SECONDS`, every reply is OK, and every other key is left as it was.
   */
  lemma {:induction false} IntendedLiveKeysSet(held: map<string, Held>, events: seq<Event>)
    ensures var r := ExecAll(held, IntendedLiveCommands(events));
      LiveKeysHeld(r.held, events) && OthersKept(held, r.held, events) && AllOk(r.replies)
    decreases |events|
  {
    if events != [] {
      var e0 := events[0];
      var rest := events[1..];
      var h1 := held[LiveKey(e0) := Held("", LIVE_SECONDS)];
      IntendedStep(held, events);
      IntendedLiveKeysSet(h1, rest);
      var r := ExecAll(held, IntendedLiveCommands(events));
      var r1 := ExecAll(h1, IntendedLiveCommands(rest));
      assert r.held == r1.held && r.replies == [Ok] + r1.replies;
      KeysAfterFirst(held, h1, r1.held, events);
      AllOkCons(r1.replies);
    }
  }

  lemma AllOkCons(replies: seq<Reply>)
    requires AllOk(replies)
    ensures AllOk([Ok] + replies)
  {
  }

  /** Writing the first event's live key, then the rest's, gives every event's key and keeps the others. */
  lemma KeysAfterFirst(held: map<string, Held>, h1: map<string, Held>, final: map<string, Held>, events: seq<Event>)
    requires events != [] && h1 == held[LiveKey(events[0]) := Held("", LIVE_SECONDS)]
    requires LiveKeysHeld(final, events[1..]) && OthersKept(h1, final, events[1..])
    ensures LiveKeysHeld(final, events) && OthersKept(held, final, events)
  {
    var rest := events[1..];
    forall k | 0 <= k < |events|
      ensures LiveKey(events[k]) in final && final[LiveKey(events[k])] == Held("", LIVE_SECONDS)
    {
      if k > 0 {
        assert events[k] == rest[k - 1];
      } else if IsLiveKeyOf(LiveKey(events[0]), rest) {
        var j :| 0 <= j < |rest| && LiveKey(events[0]) == LiveKey(rest[j]);
      }
    }
    forall key | !IsLiveKeyOf(key, events)
      ensures (key in final <==> key in held) && (key in held ==> final[key] == held[key])
    {
      assert key != LiveKey(events[0]);
    }
  }

  /** The first command writes the first event's live key with an OK reply; the rest run from there. */
  lemma IntendedStep(held: map<string, Held>, events: seq<Event>)
    requires events != []
    ensures var r := ExecAll(held, IntendedLiveCommands(events));
      var r1 := ExecAll(held[LiveKey(events[0]) := Held("", LIVE_SECONDS)], IntendedLiveCommands(events[1..]));
      r.held == r1.held && r.replies == [Ok] + r1.replies
  {
    SecondsArgument();
    var cs := IntendedLiveCommands(events);
    assert cs[1..] == IntendedLiveCommands(events[1..]);
    assert RunSetEx(held, cs[0]) == (held[LiveKey(events[0]) := Held("", LIVE_SECONDS)], Ok);
  }

  function Ids(events: seq<Event>): (r: seq<string>)
    ensures |r| == |events| && forall k :: 0 <= k < |r| ==> r[k] == events[k].id
  {
    if events == [] then [] else [events[0].id] + Ids(events[1..])
  }

  /** The saved events when every returned index found one, in order. */
  function AllPresent(saved: seq<Option<Event>>): (r: Option<seq<Event>>)
    ensures r.None? <==> exists k :: 0 <= k < |saved| && saved[k].None?
    ensures r.Some? ==> |r.value| == |saved| && forall k :: 0 <= k < |saved| ==> saved[k] == Some(r.value[k])
  {
    if saved == [] then Some([])
    else if saved[0].None? then None
    else match AllPresent(saved[1..])
      case None =>
        var k :| 0 <= k < |saved[1..]| && saved[1..][k].None?;
        assert saved[k + 1].None?;
        None
      case Some(rest) =>
        assert forall k :: 1 <= k < |saved| ==> saved[k] == saved[1..][k - 1];
        Some([saved[0].value] + rest)
  }

  /** What the hook returns or throws, the keys after its transaction, and the transaction's replies. */
  datatype Completed = Completed(result: Result<seq<string>, Thrown>, held: map<string, Held>, replies: seq<Reply>)

  /**
   * The hook with the transaction's commands given by `commands`. An undefined entry (an index past the
   * batch) makes it throw `typeError` while the transaction is being queued, so nothing runs. A rejected
   * `exec` throws its error. Otherwise the commands run, error replies do not reject `exec`, and the ids
   * come back in order.
   */
  function Complete(saved: seq<Option<Event>>, typeError: Thrown, execError: Option<Thrown>,
                    held: map<string, Held>, commands: seq<Event> -> seq<SetEx>): (c: Completed)
    ensures (exists k :: 0 <= k < |saved| && saved[k].None?) ==> c.result == Failure(typeError)
    ensures (forall k :: 0 <= k < |saved| ==> saved[k].Some?) && execError.Some? ==> c.result == Failure(execError.value)
    ensures (forall k :: 0 <= k < |saved| ==> saved[k].Some?) && execError.None? ==>
      c.result.Success? && |c.result.value| == |saved| && forall k :: 0 <= k < |saved| ==> c.result.value[k] == saved[k].value.id
    ensures c.result.Failure? ==> c.held == held && c.replies == []
    ensures c.result.Success? ==>
      AllPresent(saved).Some? && c == Completed(c.result, ExecAll(held, commands(AllPresent(saved).value)).held,
                                                ExecAll(held, commands(AllPresent(saved).value)).replies)
  {
    match AllPresent(saved)
    case None => Completed(Failure(typeError), held, [])
    case Some(events) =>
      match execError
      case Some(e) => Completed(Failure(e), held, [])
      case None =>
        var r := ExecAll(held, commands(events));
        Completed(Success(Ids(events)), r.held, r.replies)
  }

  /**
   * `onCompleted(savedEvents)` as written: the ids of the saved events in order, and no live key is ever
   * written, because Redis refuses each `SETEX` it queues.
   */
  function OnCompleted(saved: seq<Option<Event>>, typeError: Thrown, execError: Option<Thrown>,
                       held: map<string, Held>): (c: Completed)
    ensures (exists k :: 0 <= k < |saved| && saved[k].None?) ==> c.result == Failure(typeError)
    ensures (forall k :: 0 <= k < |saved| ==> saved[k].Some?) && execError.Some? ==> c.result == Failure(execError.value)
    ensures (forall k :: 0 <= k < |saved| ==> saved[k].Some?) && execError.None? ==>
      c.result.Success? && |c.result.value| == |saved| && forall k :: 0 <= k < |saved| ==> c.result.value[k] == saved[k].value.id
    ensures c.held == held
    ensures c.result.Success? ==>
      |c.replies| == |saved| && forall k :: 0 <= k < |c.replies| ==> c.replies[k] == ReplyError(NOT_AN_INTEGER)
  {
    match AllPresent(saved)
    case None => Complete(saved, typeError, execError, held, LiveCommands)
    case Some(events) =>
      LiveKeysNeverSet(held, events);
      Complete(saved, typeError, execError, held, LiveCommands)
  }

  /**
   * The hook as evidently meant: the same result, and after it every saved event's live key holds `''`
   * for `LIVE_SECONDS`, with every other key as it was.
   */
  function OnCompletedIntended(saved: seq<Option<Event>>, typeError: Thrown, execError: Option<Thrown>,
                               held: map<string, Held>): (c: Completed)
    ensures (exists k :: 0 <= k < |saved| && saved[k].None?) ==> c.result == Failure(typeError)
    ensures (forall k :: 0 <= k < |saved| ==> saved[k].Some?) && execError.Some? ==> c.result == Failure(execError.value)
    ensures (forall k :: 0 <= k < |saved| ==> saved[k].Some?) && execError.None? ==>
      c.result.Success? && |c.result.value| == |saved| && forall k :: 0 <= k < |saved| ==> c.result.value[k] == saved[k].value.id
    ensures c.result.Failure? ==> c.held == held
    ensures c.result.Success? ==>
      forall k :: 0 <= k < |saved| ==>
        saved[k].Some? && LiveKey(saved[k].value) in c.held && c.held[LiveKey(saved[k].value)] == Held("", LIVE_SECONDS)
    ensures c.result.Success? ==> AllOk(c.replies)
  {
    match AllPresent(saved)
    case None => Complete(saved, typeError, execError, held, IntendedLiveCommands)
    case Some(events) =>
      IntendedLiveKeysSet(held, events);
      Complete(saved, typeError, execError, held, IntendedLiveCommands)
  }
}
