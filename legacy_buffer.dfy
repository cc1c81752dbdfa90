/**
 * The older list buffer: the same Redis list `op:buffer:<table>`, a batch size fixed at construction, a
 * `beforeFlush` callback in place of `processQueue`, and a flush that swallows every error. The event
 * buffer of that version groups screen views without a session id under `''`, re-sorts a session's views
 * on every addition, never marks `__duration_from` and flattens `properties` into the rows it inserts.
 */
module LegacyBuffer {
  import opened Wrappers
  import opened JsonValues
  import opened ListStore
  import opened Events
  import opened Sorting
  import opened SessionStitch
  import EventBuffer
  import ObjectUtil

  /** The list both `beforeFlush` callbacks push a failed batch to. */
  const ERROR_KEY: string := "op:buffer:error:events"

  /**
   * What a `beforeFlush` callback leaves behind: the batch array as it then stands (it sorts it in place),
   * the list positions it returns, and the entry it pushes to `ERROR_KEY` when its store insert fails.
   */
  datatype Before<T> = Before(data: seq<QueueItem<T>>, indexes: seq<nat>, errorEntry: Option<string>)

  class Buffer<T> {
    const table: string
    const batchSize: int
    /** `JSON.stringify` and `JSON.parse` for this buffer's values. */
    const encode: T -> string
    const decode: string -> Option<T>
    /** The Redis list at `Key(table)`. */
    var list: seq<string>
    /** The Redis list at `ERROR_KEY`. */
    var errorList: seq<string>

    constructor (table: string, batchSize: int, encode: T -> string, decode: string -> Option<T>,
                 stored: seq<string>, errors: seq<string>)
      ensures this.table == table && this.batchSize == batchSize && this.encode == encode && this.decode == decode
      ensures list == stored && errorList == errors
    {
      this.table := table;
      this.batchSize := batchSize;
      this.encode := encode;
      this.decode := decode;
      list := stored;
      errorList := errors;
    }

    /**
     * `rpush` the serialised value, then ask for a flush when `llen` has reached the batch size. A rejected
     * `rpush` (`pushError`) leaves the list alone; a rejected `llen` (`lenError`) comes after the push. Either
     * makes `insert` throw that error without asking for a flush.
     */
    method Insert(value: T, pushError: Option<Thrown>, lenError: Option<Thrown>) returns (r: Result<bool, Thrown>)
      modifies this
      ensures pushError.Some? ==> list == old(list) && r == Failure(pushError.value)
      ensures pushError.None? ==> list == old(list) + [encode(value)]
      ensures pushError.None? && lenError.Some? ==> r == Failure(lenError.value)
      ensures pushError.None? && lenError.None? ==> r.Success? && (r.value <==> |list| >= batchSize)
      ensures errorList == old(errorList)
    {
      if pushError.Some? {
        return Failure(pushError.value);
      }
      list := list + [encode(value)];
      if lenError.Some? {
        return Failure(lenError.value);
      }
      r := Success(|list| >= batchSize);
    }

    /** One `multi`: `LSET` each index to the sentinel, then `LREM 0` every sentinel. */
    method TrimIndexes(indexes: seq<nat>)
      modifies this
      ensures list == TrimList(old(list), indexes)
      ensures errorList == old(errorList)
    {
      var k := 0;
      while k < |indexes|
        invariant 0 <= k <= |indexes|
        invariant list == MarkAll(old(list), indexes[..k])
        invariant errorList == old(errorList)
      {
        assert indexes[..k + 1][..k] == indexes[..k];
        list := LSet(list, indexes[k], DELETE);
        k := k + 1;
      }
      assert indexes[..k] == indexes;
      list := LRemAll(list, DELETE);
    }

    /**
     * `flush()`. `readOk` is whether `LRANGE 0 batchSize` succeeded, `beforeFlush` the callback, `pushOk`
     * whether its push to the error list succeeded (a failure there is ignored), `trimOk` whether the
     * trimming transaction succeeded and `hook` the optional `onCompleted`, which may throw. Every error
     * ends the flush with `undefined`; the trim runs even when `beforeFlush` returns no index, and then
     * only removes stale sentinels.
     */
    method Flush<R>(readOk: bool, beforeFlush: seq<QueueItem<T>> -> Before<T>, pushOk: bool, trimOk: bool,
                    hook: Option<seq<Option<T>> -> Result<R, Thrown>>)
      returns (r: FlushReturn<R>)
      modifies this
      ensures !readOk ==> r == Undefined && list == old(list) && errorList == old(errorList)
      ensures readOk ==>
        var b := beforeFlush(GetQueue(old(list), batchSize, decode));
        errorList == old(errorList) + (if pushOk && b.errorEntry.Some? then [b.errorEntry.value] else [])
      ensures readOk && !trimOk ==> r == Undefined && list == old(list)
      ensures readOk && trimOk ==>
        var b := beforeFlush(GetQueue(old(list), batchSize, decode));
        list == TrimList(old(list), b.indexes) &&
        r == match hook
          case None => ReturnedIndexes(b.indexes)
          case Some(h) =>
            match h(SavedEvents(b.data, b.indexes))
            case Success(v) => HookResult(v)
            case Failure(_) => Undefined
    {
      if !readOk {
        return Undefined;
      }
      var data := GetQueue(list, batchSize, decode);
      var b := beforeFlush(data);
      if pushOk && b.errorEntry.Some? {
        errorList := errorList + [b.errorEntry.value];
      }
      if !trimOk {
        return Undefined;
      }
      TrimIndexes(b.indexes);
      var saved := SavedEvents(b.data, b.indexes);
      match hook {
        case None =>
          r := ReturnedIndexes(b.indexes);
        case Some(h) =>
          match h(saved) {
            case Success(v) =>
              r := HookResult(v);
            case Failure(_) =>
              r := Undefined;
          }
      }
    }
  }

  // ---------------------------------------------------------------------------------------------
  // The event buffer's `beforeFlush`: the reference

  /** A non-view is written as it is. */
  function AsIs(item: Item): Item {
    item
  }

  /**
   * One step of the grouping `reduce` over the sorted batch: a view of a known session makes that session's
   * list `[...exists, item].sort(oldest first)`, a view of a new one starts `[item]`.
   */
  function LegacyGroupStep(s: seq<Item>, gs: seq<Group>, n: nat): seq<Group>
    requires n < |s|
  {
    if !IsView(s[n]) then gs
    else
      var sid := s[n].event.sessionId;
      match FindGroup(gs, sid)
      case Some(i) => gs[i := Group(sid, SortBy(gs[i].members + [n], EventBuffer.PosKey(s)))]
      case None => gs + [Group(sid, [n])]
  }

  /** The grouping `reduce` over the first `n` items of the sorted batch. */
  function LegacyGroupsUpTo(s: seq<Item>, n: nat): seq<Group>
    requires n <= |s|
    decreases n
  {
    if n == 0 then [] else LegacyGroupStep(s, LegacyGroupsUpTo(s, n - 1), n - 1)
  }

  /**
   * On a batch sorted oldest first the re-sorting is a no-op: the views of a session arrive in order, so the
   * grouping is the plain one that keeps views without a session id (under `''`).
   */
  lemma {:induction false} LegacyGroupsAre(s: seq<Item>, n: nat)
    requires SortedBy(s, ByCreatedAt) && n <= |s|
    ensures LegacyGroupsUpTo(s, n) == GroupsUpTo(s, n, false)
    decreases n
  {
    if n > 0 {
      LegacyGroupsAre(s, n - 1);
      var gs := GroupsUpTo(s, n - 1, false);
      GroupsFacts(s, n - 1, false);
      if IsView(s[n - 1]) {
        match FindGroup(gs, s[n - 1].event.sessionId)
        case Some(i) =>
          var m := gs[i].members + [n - 1];
          assert Increasing(m) && InRange(m, |s|) by {
            assert Increasing(gs[i].members);
            forall t | 0 <= t < |gs[i].members| ensures gs[i].members[t] < n - 1 {
              assert AllInRange(gs, n - 1);
            }
          }
          EventBuffer.ViewsInOrder(s, m);
        case None =>
      }
    }
  }

  /** The batch array after the sort, what `beforeFlush` writes, and where in the array each written item comes from. */
  function LegacyProcess(queue: seq<Item>): (o: EventBuffer.Outcome)
    ensures |o.data| == |queue|
  {
    var s := EventBuffer.Sorted(queue);
    SortByFacts(queue, ByCreatedAt);
    assert |s| == |queue| by { assert |multiset(s)| == |multiset(queue)|; }
    var gs := LegacyGroupsUpTo(s, |s|);
    LegacyGroupsAre(s, |s|);
    assert gs == Groups(s, false);
    var st := StitchGroups(Batch(s, [], []), gs, |gs|, false);
    EventBuffer.Outcome(s, EventBuffer.PassThrough(s, AsIs, |s|) + st.written, EventBuffer.NonViews(s, |s|) + st.from)
  }

  /** `{...item.event, properties: toDots(item.event.properties)}` for each written item. */
  function Rows(items: seq<Item>): (rows: seq<Event>)
    ensures |rows| == |items|
    ensures forall k :: 0 <= k < |items| ==>
      rows[k] == items[k].event.(properties := ObjectUtil.ToDots(items[k].event.properties, ""))
  {
    if items == [] then []
    else [items[0].event.(properties := ObjectUtil.ToDots(items[0].event.properties, ""))] + Rows(items[1..])
  }

  /**
   * The event `beforeFlush(queue)`: on a successful insert the list positions of the written items; when
   * the insert throws, no position, and the written items (serialised by `stringify`) for the error list.
   */
  function EventsBeforeFlush(queue: seq<Item>, insert: seq<Event> -> Option<Thrown>, stringify: seq<Item> -> string): Before<Event> {
    var o := LegacyProcess(queue);
    match insert(Rows(o.written))
    case None => Before(o.data, Indexes(o.written), None)
    case Some(_) => Before(o.data, [], Some(stringify(o.written)))
  }

  // ---------------------------------------------------------------------------------------------
  // What the reference promises

  lemma MembersKeepData(b: Batch, m: seq<nat>, k: nat, hasEnd: bool)
    requires k <= |m| && InRange(m, |b.data|)
    ensures StitchMembers(b, m, k, hasEnd, false).data == b.data
    decreases k
  {
    if k > 0 {
      MembersKeepData(b, m, k - 1, hasEnd);
    }
  }

  /** Without marking, the stitching leaves the batch array as it is. */
  lemma GroupsKeepData(b: Batch, gs: seq<Group>, n: nat)
    requires n <= |gs| && AllInRange(gs, |b.data|)
    ensures StitchGroups(b, gs, n, false).data == b.data
    decreases n
  {
    if n > 0 {
      GroupsKeepData(b, gs, n - 1);
      var prev := StitchGroups(b, gs, n - 1, false);
      MembersKeepData(prev, gs[n - 1].members, |gs[n - 1].members|, HasSessionEnd(prev.data, gs[n - 1].sid));
    }
  }

  /**
   * The old `beforeFlush` sorts the batch oldest first, as a permutation, and then writes every non-view as
   * it is and exactly the screen views the stitching selects, views without a session id included, each
   * once and as the stitching writes it, without marking anything in the array.
   */
  lemma LegacyFacts(queue: seq<Item>)
    ensures var s := EventBuffer.Sorted(queue);
      |s| == |queue| && SortedBy(s, ByCreatedAt) && multiset(s) == multiset(queue) &&
      EventBuffer.WriteSpec(s, AsIs, false, false, LegacyProcess(queue))
  {
    var s := EventBuffer.Sorted(queue);
    SortByFacts(queue, ByCreatedAt);
    assert |s| == |queue| by { assert |multiset(s)| == |multiset(queue)|; }
    LegacyGroupsAre(s, |s|);
    var st := Stitched(s, false, false);
    StitchedFacts(s, false, false);
    assert st.data == s;
    EventBuffer.NonViewsOrdered(s, |s|);
    EventBuffer.NonViewsCover(s, |s|);
    EventBuffer.PassThroughFacts(s, AsIs, |s|);
    EventBuffer.JoinSpec(s, AsIs, false, false, EventBuffer.NonViews(s, |s|), EventBuffer.PassThrough(s, AsIs, |s|), st);
  }

  /**
   * A view with a successor in its session is written with the duration up to it, even without a session id,
   * and with its properties untouched; the durations are at least 0 on the sorted batch.
   */
  lemma LegacyDurations(s: seq<Item>, o: EventBuffer.Outcome, j: nat)
    requires SortedBy(s, ByCreatedAt) && EventBuffer.WriteSpec(s, AsIs, false, false, o) && j < |o.from|
    ensures o.from[j] < |s|
    ensures IsView(s[o.from[j]]) && NextInSession(s, o.from[j]).Some? ==>
      var q := NextInSession(s, o.from[j]).value;
      o.written[j].event.duration == s[q].event.createdAt - s[o.from[j]].event.createdAt >= 0 &&
      o.written[j].event.properties == s[o.from[j]].event.properties
  {
  }

  /** Every screen view with a successor in its session is written, whatever its session id. */
  lemma LegacyViewWithSuccessorWritten(s: seq<Item>, o: EventBuffer.Outcome, p: nat)
    requires EventBuffer.WriteSpec(s, AsIs, false, false, o)
    requires p < |s| && IsView(s[p]) && NextInSession(s, p).Some?
    ensures p in o.from
  {
  }

  /** The last screen view of a session is written, unchanged, exactly when the batch holds that session's end. */
  lemma LegacyLastViewIffSessionEnd(s: seq<Item>, o: EventBuffer.Outcome, p: nat)
    requires EventBuffer.WriteSpec(s, AsIs, false, false, o)
    requires p < |s| && IsView(s[p]) && NextInSession(s, p).None?
    ensures p in o.from <==> HasSessionEnd(s, s[p].event.sessionId)
    ensures WrittenView(s, p, false) == s[p]
  {
  }

  /**
   * What `beforeFlush` returns: after a successful insert, the list position of every non-view and of every
   * selected view, one per written item and so at most one per batch item; after a failed one, nothing, with
   * the written items pushed to the error list.
   */
  lemma EventsBeforeFlushFacts(queue: seq<Item>, insert: seq<Event> -> Option<Thrown>, stringify: seq<Item> -> string)
    ensures EventsBeforeFlush(queue, insert, stringify).data == EventBuffer.Sorted(queue)
    ensures insert(Rows(LegacyProcess(queue).written)).Some? ==>
      EventsBeforeFlush(queue, insert, stringify) == Before(EventBuffer.Sorted(queue), [], Some(stringify(LegacyProcess(queue).written)))
    ensures insert(Rows(LegacyProcess(queue).written)).None? ==>
      var b := EventsBeforeFlush(queue, insert, stringify);
      b.errorEntry == None && |b.indexes| <= |queue| && EventBuffer.WrittenPositions(EventBuffer.Sorted(queue), false, b.indexes)
  {
    LegacyFacts(queue);
    EventBuffer.WrittenIndexes(EventBuffer.Sorted(queue), AsIs, false, false, LegacyProcess(queue));
  }

  // ---------------------------------------------------------------------------------------------
  // The event buffer's `beforeFlush`: the method

  /** The `filter(not a screen_view).forEach(add)` over the sorted batch. */
  method PassAll(sorted: seq<Item>) returns (written: seq<Item>)
    ensures written == EventBuffer.PassThrough(sorted, AsIs, |sorted|)
  {
    written := [];
    for i := 0 to |sorted|
      invariant written == EventBuffer.PassThrough(sorted, AsIs, i)
    {
      if !IsView(sorted[i]) {
        written := written + [sorted[i]];
      }
    }
  }

  /** The `forEach` over one session's views: each with a successor gets its duration, the last one may be added as it is. */
  method StitchSessionViews(sorted: seq<Item>, screenViews: seq<nat>, hasSessionEnd: bool, ghost prev: Batch,
                            ghost pass: seq<Item>, written0: seq<Item>)
    returns (written: seq<Item>)
    requires prev.data == sorted && InRange(screenViews, |sorted|) && written0 == pass + prev.written
    ensures written == pass + StitchMembers(prev, screenViews, |screenViews|, hasSessionEnd, false).written
  {
    written := written0;
    for k := 0 to |screenViews|
      invariant written == pass + StitchMembers(prev, screenViews, k, hasSessionEnd, false).written
    {
      written := StitchOneView(sorted, screenViews, k, hasSessionEnd, prev, pass, written);
    }
  }

  /** One iteration over a session's views. */
  method StitchOneView(sorted: seq<Item>, screenViews: seq<nat>, k: nat, hasSessionEnd: bool, ghost prev: Batch,
                       ghost pass: seq<Item>, written0: seq<Item>)
    returns (written: seq<Item>)
    requires prev.data == sorted && k < |screenViews| && InRange(screenViews, |sorted|)
    requires written0 == pass + StitchMembers(prev, screenViews, k, hasSessionEnd, false).written
    ensures written == pass + StitchMembers(prev, screenViews, k + 1, hasSessionEnd, false).written
  {
    ghost var cur := StitchMembers(prev, screenViews, k, hasSessionEnd, false);
    EventBuffer.MembersStep(prev, screenViews, k, hasSessionEnd, false);
    MembersKeepData(prev, screenViews, k, hasSessionEnd);
    written := written0;
    var item := sorted[screenViews[k]];
    if k + 1 < |screenViews| {
      var next := sorted[screenViews[k + 1]];
      var duration := next.event.createdAt - item.event.createdAt;
      var copy := item.(event := item.event.(duration := duration));
      assert copy == Stamp(cur.data[screenViews[k]], next.event.id, next.event.createdAt, false);
      EventBuffer.SnocAssoc(pass, cur.written, copy);
      written := written + [copy];
    } else {
      EventBuffer.LastStep(cur, screenViews, k, hasSessionEnd, false);
      if hasSessionEnd {
        EventBuffer.SnocAssoc(pass, cur.written, item);
        written := written + [item];
      }
    }
  }

  /** The `for (const [sessionId, screenViews] of Object.entries(grouped))` loop. */
  method StitchAllSessions(sorted: seq<Item>, gs: seq<Group>, pass: seq<Item>) returns (written: seq<Item>)
    requires AllInRange(gs, |sorted|)
    ensures written == pass + StitchGroups(Batch(sorted, [], []), gs, |gs|, false).written
  {
    written := pass;
    for g := 0 to |gs|
      invariant written == pass + StitchGroups(Batch(sorted, [], []), gs, g, false).written
    {
      written := StitchOneSession(sorted, gs, g, pass, written);
    }
  }

  /** One iteration of the loop over the sessions: `hasSessionEnd` by `queue.find`, then that session's views. */
  method StitchOneSession(sorted: seq<Item>, gs: seq<Group>, g: nat, ghost pass: seq<Item>, written0: seq<Item>)
    returns (written: seq<Item>)
    requires AllInRange(gs, |sorted|) && g < |gs|
    requires written0 == pass + StitchGroups(Batch(sorted, [], []), gs, g, false).written
    ensures written == pass + StitchGroups(Batch(sorted, [], []), gs, g + 1, false).written
  {
    ghost var b0 := Batch(sorted, [], []);
    ghost var prev := StitchGroups(b0, gs, g, false);
    EventBuffer.GroupsStep(b0, gs, g, false);
    GroupsKeepData(b0, gs, g);
    var screenViews := gs[g].members;
    var hasSessionEnd := HasSessionEnd(sorted, gs[g].sid);
    written := StitchSessionViews(sorted, screenViews, hasSessionEnd, prev, pass, written0);
  }

  /**
   * The event `beforeFlush(queue)` on the batch array: the sort in place, the pass-through of the non-views,
   * the grouping, the stitching of each session and the insert of the flattened rows. The array ends sorted
   * and the result is as the reference says.
   */
  method BeforeFlushEvents(queue: array<Item>, insert: seq<Event> -> Option<Thrown>, stringify: seq<Item> -> string)
    returns (indexes: seq<nat>, errorEntry: Option<string>)
    modifies queue
    ensures Before(queue[..], indexes, errorEntry) == EventsBeforeFlush(old(queue[..]), insert, stringify)
  {
    ghost var input := queue[..];
    SortInPlace(queue, ByCreatedAt);
    var sorted := queue[..];
    SortByFacts(input, ByCreatedAt);
    var written := PassAll(sorted);
    var gs := LegacyGroupsUpTo(sorted, |sorted|);
    LegacyGroupsAre(sorted, |sorted|);
    assert gs == Groups(sorted, false);
    written := StitchAllSessions(sorted, gs, written);
    assert written == LegacyProcess(input).written;
    match insert(Rows(written)) {
      case None =>
        indexes := Indexes(written);
        errorEntry := None;
      case Some(_) =>
        indexes := [];
        errorEntry := Some(stringify(written));
    }
  }

  // ---------------------------------------------------------------------------------------------
  // The event buffer's `onCompleted`

  /** The keys set with their lifetime in seconds, and what the hook returns or throws. */
  datatype Completion = Completion(liveWrites: seq<(string, int)>, result: Result<seq<string>, Thrown>)

  /**
   * The old `onCompleted(savedEvents)`: for each saved event in order a live key is set for five minutes,
   * and the ids are returned. An undefined entry throws `typeError` when it is read, after the keys of the
   * events before it have been set.
   */
  function OnCompleted(saved: seq<Option<Event>>, typeError: Thrown): (c: Completion)
    ensures |c.liveWrites| <= |saved|
    ensures forall k :: 0 <= k < |c.liveWrites| ==>
      saved[k].Some? && c.liveWrites[k] == (EventBuffer.LiveKey(saved[k].value), EventBuffer.LIVE_SECONDS)
    ensures c.result.Success? <==> forall k :: 0 <= k < |saved| ==> saved[k].Some?
    ensures c.result.Success? ==>
      |c.liveWrites| == |saved| && |c.result.value| == |saved| &&
      forall k :: 0 <= k < |saved| ==> c.result.value[k] == saved[k].value.id
    ensures c.result.Failure? ==> c.result.error == typeError && |c.liveWrites| < |saved| && saved[|c.liveWrites|].None?
    decreases |saved|
  {
    if saved == [] then Completion([], Success([]))
    else match saved[0]
      case None => Completion([], Failure(typeError))
      case Some(e) =>
        var rest := OnCompleted(saved[1..], typeError);
        assert forall k :: 1 <= k < |saved| ==> saved[k] == saved[1..][k - 1];
        Completion([(EventBuffer.LiveKey(e), EventBuffer.LIVE_SECONDS)] + rest.liveWrites,
                   match rest.result
                   case Success(ids) => Success([e.id] + ids)
                   case Failure(x) => Failure(x))
  }
}
