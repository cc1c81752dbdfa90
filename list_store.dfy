/**
 * The Redis list that backs a buffer and the commands the buffers send to it: `LRANGE 0 stop`, the
 * `LSET`/`LREM` transaction that removes flushed entries, and the parsing of the list into queue items.
 * Both buffer classes (the generic one and the older one with a fixed batch size) use this vocabulary.
 */
module ListStore {
  import opened Wrappers

  /** The sentinel written over a flushed entry before all sentinels are removed. */
  const DELETE: string := "__DELETE__"
  const PREFIX: string := "op:buffer"

  /** The list key of a buffer: `op:buffer:<table>`. */
  function Key(table: string): string {
    PREFIX + ":" + table
  }

  function Min(a: int, b: int): int { if a <= b then a else b }

  /** `LRANGE key 0 stop`, both ends inclusive; a negative `stop` counts from the end. */
  function LRange(list: seq<string>, stop: int): (r: seq<string>)
    ensures r <= list
    ensures 0 <= stop ==> |r| == Min(stop + 1, |list|)
    ensures stop < 0 && |list| + stop >= 0 ==> |r| == |list| + stop + 1
    ensures stop < 0 && |list| + stop < 0 ==> r == []
  {
    var last := if stop < 0 then |list| + stop else stop;
    if last < 0 then [] else list[..Min(last + 1, |list|)]
  }

  /** `LRANGE key 0 -1` is the whole list. */
  lemma LRangeAll(list: seq<string>)
    ensures LRange(list, -1) == list
  {
    assert list[..|list|] == list;
  }

  /** `LSET key i v`; an index past the end is an error reply inside the transaction and changes nothing. */
  function LSet(list: seq<string>, i: nat, v: string): (r: seq<string>)
    ensures |r| == |list|
    ensures forall p :: 0 <= p < |r| ==> r[p] == (if p == i then v else list[p])
  {
    if i < |list| then list[i := v] else list
  }

  /** The list after the queued `LSET key i __DELETE__` commands, one per index, in order. */
  function MarkAll(list: seq<string>, indexes: seq<nat>): seq<string>
    decreases |indexes|
  {
    if indexes == [] then list
    else LSet(MarkAll(list, indexes[..|indexes| - 1]), indexes[|indexes| - 1], DELETE)
  }

  /** `LREM key 0 v`: every entry equal to `v` removed, the rest in order. */
  function LRemAll(list: seq<string>, v: string): (r: seq<string>)
    ensures v !in r
    ensures |r| <= |list|
    decreases |list|
  {
    if list == [] then []
    else LRemAll(list[..|list| - 1], v) + (if list[|list| - 1] == v then [] else [list[|list| - 1]])
  }

  /** The whole trimming transaction. */
  function TrimList(list: seq<string>, indexes: seq<nat>): seq<string> {
    LRemAll(MarkAll(list, indexes), DELETE)
  }

  /** Reference definition: the entries that are neither targeted nor already a sentinel, in list order. */
  function Survivors(list: seq<string>, indexes: seq<nat>): seq<string>
    decreases |list|
  {
    if list == [] then []
    else
      var p := |list| - 1;
      Survivors(list[..p], indexes) + (if p in indexes || list[p] == DELETE then [] else [list[p]])
  }

  /** The positions `Survivors` keeps. */
  function Kept(list: seq<string>, indexes: seq<nat>): (ks: seq<nat>)
    ensures forall k :: 0 <= k < |ks| ==> ks[k] < |list|
    ensures forall k, m :: 0 <= k < m < |ks| ==> ks[k] < ks[m]
    ensures forall p: nat :: p in ks <==> p < |list| && p !in indexes && list[p] != DELETE
    decreases |list|
  {
    if list == [] then []
    else
      var p := |list| - 1;
      Kept(list[..p], indexes) + (if p in indexes || list[p] == DELETE then [] else [p])
  }

  // ---------------------------------------------------------------------------------------------

  lemma {:induction false} MarkAllAt(list: seq<string>, indexes: seq<nat>)
    ensures |MarkAll(list, indexes)| == |list|
    ensures forall p :: 0 <= p < |list| ==> MarkAll(list, indexes)[p] == (if p in indexes then DELETE else list[p])
    decreases |indexes|
  {
    if indexes != [] {
      var init := indexes[..|indexes| - 1];
      MarkAllAt(list, init);
      assert indexes == init + [indexes[|indexes| - 1]];
    }
  }

  lemma MarkAllLast(list: seq<string>, indexes: seq<nat>)
    requires list != []
    ensures var p := |list| - 1; var m := MarkAll(list, indexes);
      |m| == |list| && m[..p] == MarkAll(list[..p], indexes) && m[p] == if p in indexes then DELETE else list[p]
  {
    var p := |list| - 1;
    MarkAllAt(list, indexes);
    MarkAllAt(list[..p], indexes);
    var m, m' := MarkAll(list, indexes), MarkAll(list[..p], indexes);
    forall i | 0 <= i < p ensures m[..p][i] == m'[i] {
      assert list[..p][i] == list[i];
    }
  }

  /** Trimming removes exactly the targeted positions and the stale sentinels. */
  lemma {:induction false} TrimIsSurvivors(list: seq<string>, indexes: seq<nat>)
    ensures TrimList(list, indexes) == Survivors(list, indexes)
    decreases |list|
  {
    if list != [] {
      var p := |list| - 1;
      TrimIsSurvivors(list[..p], indexes);
      MarkAllLast(list, indexes);
      var m := MarkAll(list, indexes);
      var tail := if p in indexes || list[p] == DELETE then [] else [list[p]];
      assert (if m[p] == DELETE then [] else [m[p]]) == tail;
      calc {
        TrimList(list, indexes);
        LRemAll(m[..p], DELETE) + tail;
        TrimList(list[..p], indexes) + tail;
        Survivors(list, indexes);
      }
    } else {
      MarkAllAt(list, indexes);
    }
  }

  /** The survivors are the kept positions' entries, in increasing position order. */
  lemma {:induction false} SurvivorsAreKept(list: seq<string>, indexes: seq<nat>)
    ensures |Survivors(list, indexes)| == |Kept(list, indexes)|
    ensures forall k :: 0 <= k < |Kept(list, indexes)| ==> Survivors(list, indexes)[k] == list[Kept(list, indexes)[k]]
    decreases |list|
  {
    if list != [] {
      var p := |list| - 1;
      SurvivorsAreKept(list[..p], indexes);
    }
  }

  /** Only which positions are targeted matters: repeating or reordering indexes changes nothing. */
  lemma {:induction false} TrimSameTargets(list: seq<string>, i1: seq<nat>, i2: seq<nat>)
    requires forall p: nat :: p in i1 <==> p in i2
    ensures TrimList(list, i1) == TrimList(list, i2)
  {
    TrimIsSurvivors(list, i1);
    TrimIsSurvivors(list, i2);
    SurvivorsSameTargets(list, i1, i2);
  }

  lemma {:induction false} SurvivorsSameTargets(list: seq<string>, i1: seq<nat>, i2: seq<nat>)
    requires forall p: nat :: p in i1 <==> p in i2
    ensures Survivors(list, i1) == Survivors(list, i2)
    decreases |list|
  {
    if list != [] {
      SurvivorsSameTargets(list[..|list| - 1], i1, i2);
    }
  }

  /** With no indexes, a list without sentinels is left as it is. */
  lemma {:induction false} TrimNothing(list: seq<string>)
    requires DELETE !in list
    ensures TrimList(list, []) == list
    decreases |list|
  {
    TrimIsSurvivors(list, []);
    SurvivorsNothing(list);
  }

  lemma {:induction false} SurvivorsNothing(list: seq<string>)
    requires DELETE !in list
    ensures Survivors(list, []) == list
    decreases |list|
  {
    if list != [] {
      var p := |list| - 1;
      assert list[p] in list;
      SurvivorsNothing(list[..p]);
      assert list == list[..p] + [list[p]];
    }
  }

  // ---------------------------------------------------------------------------------------------
  // Queue items

  /** A parsed entry together with its raw position in the list that was read. */
  datatype QueueItem<T> = QueueItem(event: T, index: nat)

  /**
   * `queue.map((item, index) => ({event: parse(item), index})).filter(item => item.event !== null)`.
   * `decode` is `JSON.parse` with its failure (and a literal `null`) as `None`.
   */
  function Parse<T>(range: seq<string>, decode: string -> Option<T>): (items: seq<QueueItem<T>>)
    ensures |items| <= |range|
    ensures forall k :: 0 <= k < |items| ==>
      items[k].index < |range| && decode(range[items[k].index]) == Some(items[k].event)
    ensures forall k, m :: 0 <= k < m < |items| ==> items[k].index < items[m].index
    ensures forall p :: 0 <= p < |range| && decode(range[p]).Some? ==> QueueItem(decode(range[p]).value, p) in items
    decreases |range|
  {
    if range == [] then []
    else
      var p := |range| - 1;
      var init := Parse(range[..p], decode);
      match decode(range[p])
      case None => init
      case Some(e) => init + [QueueItem(e, p)]
  }

  /** `getQueue(limit)`: the parsed entries among positions `0..limit` (inclusive), or all when `limit` is -1. */
  function GetQueue<T>(list: seq<string>, limit: int, decode: string -> Option<T>): seq<QueueItem<T>> {
    Parse(LRange(list, limit), decode)
  }

  /** `data[index]?.event` for each returned index: a position in the batch array, `None` past its end. */
  function SavedEvents<T>(data: seq<QueueItem<T>>, indexes: seq<nat>): (r: seq<Option<T>>)
    ensures |r| == |indexes|
    ensures forall k :: 0 <= k < |r| ==>
      r[k] == if indexes[k] < |data| then Some(data[indexes[k]].event) else None
  {
    if indexes == [] then []
    else
      [if indexes[0] < |data| then Some(data[indexes[0]].event) else None] + SavedEvents(data, indexes[1..])
  }

  function Events<T>(data: seq<QueueItem<T>>): (r: seq<T>)
    ensures |r| == |data| && forall k :: 0 <= k < |data| ==> r[k] == data[k].event
  {
    if data == [] then [] else [data[0].event] + Events(data[1..])
  }

  function Indexes<T>(data: seq<QueueItem<T>>): (r: seq<nat>)
    ensures |r| == |data| && forall k :: 0 <= k < |data| ==> r[k] == data[k].index
  {
    if data == [] then [] else [data[0].index] + Indexes(data[1..])
  }

  // ---------------------------------------------------------------------------------------------
  // find / findMany over the whole list

  /** `items.filter(pred)`. */
  function Filter<T>(items: seq<T>, pred: T -> bool): (r: seq<T>)
    ensures |r| <= |items|
    ensures forall x :: x in r ==> x in items && pred(x)
    ensures forall k :: 0 <= k < |items| && pred(items[k]) ==> items[k] in r
    decreases |items|
  {
    if items == [] then []
    else (if pred(items[0]) then [items[0]] else []) + Filter(items[1..], pred)
  }

  /**
   * The slot of key `k` in a JavaScript object or `Map` kept as its entries in insertion order: the last
   * entry whose key is `k` (keys are unique there, so it is the only one).
   */
  function LastKeyIndex<T>(entries: seq<T>, keyOf: T -> string, k: string): (r: Option<nat>)
    ensures r.Some? ==> r.value < |entries| && keyOf(entries[r.value]) == k
    ensures r.None? ==> forall i :: 0 <= i < |entries| ==> keyOf(entries[i]) != k
    decreases |entries|
  {
    if entries == [] then None
    else if keyOf(entries[|entries| - 1]) == k then Some(|entries| - 1)
    else LastKeyIndex(entries[..|entries| - 1], keyOf, k)
  }

  /** `items.find(pred)`. */
  function First<T>(items: seq<T>, pred: T -> bool): (r: Option<T>)
    ensures r.None? <==> forall k :: 0 <= k < |items| ==> !pred(items[k])
    ensures r.Some? ==> pred(r.value)
    ensures r.Some? ==> exists k :: 0 <= k < |items| && items[k] == r.value && (forall m :: 0 <= m < k ==> !pred(items[m]))
    decreases |items|
  {
    if items == [] then None
    else if pred(items[0]) then Some(items[0])
    else First(items[1..], pred)
  }

  function MapSeq<A, B>(f: A -> B, s: seq<A>): (r: seq<B>)
    ensures |r| == |s| && forall k :: 0 <= k < |s| ==> r[k] == f(s[k])
  {
    if s == [] then [] else [f(s[0])] + MapSeq(f, s[1..])
  }

  /** `find(callback)`: the first matching item of the whole list, transformed; null when none or the read fails. */
  function Find<T, U>(readOk: bool, list: seq<string>, decode: string -> Option<T>,
                      pred: QueueItem<T> -> bool, transform: T -> U): Option<U>
  {
    if !readOk then None
    else match First(GetQueue(list, -1, decode), pred)
      case None => None
      case Some(item) => Some(transform(item.event))
  }

  /** `findMany(callback)`: every matching item in list order, transformed; [] when the read fails. */
  function FindMany<T, U>(readOk: bool, list: seq<string>, decode: string -> Option<T>,
                          pred: QueueItem<T> -> bool, transform: T -> U): seq<U>
  {
    if !readOk then [] else MapSeq((item: QueueItem<T>) => transform(item.event), Filter(GetQueue(list, -1, decode), pred))
  }

  lemma {:induction false} FirstIsFilterHead<T>(items: seq<T>, pred: T -> bool)
    ensures First(items, pred) == if Filter(items, pred) == [] then None else Some(Filter(items, pred)[0])
    decreases |items|
  {
    if items != [] && !pred(items[0]) {
      FirstIsFilterHead(items[1..], pred);
      assert Filter(items, pred) == Filter(items[1..], pred);
    }
  }

  /** `find` returns the first of what `findMany` returns, and null exactly when that is empty. */
  lemma FindIsFirstOfFindMany<T, U>(readOk: bool, list: seq<string>, decode: string -> Option<T>,
                                   pred: QueueItem<T> -> bool, transform: T -> U)
    ensures var many := FindMany(readOk, list, decode, pred, transform);
      Find(readOk, list, decode, pred, transform) == if many == [] then None else Some(many[0])
  {
    FirstIsFilterHead(GetQueue(list, -1, decode), pred);
  }

  /** The queue read by `find`/`findMany` covers every parseable entry of the list. */
  lemma WholeListQueue<T>(list: seq<string>, decode: string -> Option<T>, p: nat)
    requires p < |list| && decode(list[p]).Some?
    ensures exists k :: 0 <= k < |GetQueue(list, -1, decode)| && GetQueue(list, -1, decode)[k] == QueueItem(decode(list[p]).value, p)
  {
    LRangeAll(list);
    var items := GetQueue(list, -1, decode);
    assert QueueItem(decode(list[p]).value, p) in items;
  }

  // ---------------------------------------------------------------------------------------------
  // Shared flush vocabulary

  /** A thrown value: an `Error` with its message, or anything else. */
  datatype Thrown = ErrorInstance(message: string) | OtherValue

  /** `e instanceof Error ? e.message : 'Unknown error'`. */
  function ErrorMessage(e: Thrown): string {
    match e
    case ErrorInstance(m) => m
    case OtherValue => "Unknown error"
  }

  /**
   * What the batch processor leaves behind: the batch array as it then stands (it sorts it in place and may
   * change items) and the list positions to remove, or the error it threw.
   */
  datatype Processed<T> = Processed(data: seq<QueueItem<T>>, outcome: Result<seq<nat>, Thrown>)

  /** The value a flush resolves to. */
  datatype FlushReturn<R> = Undefined | ReturnedIndexes(indexes: seq<nat>) | HookResult(value: R)

  // ---------------------------------------------------------------------------------------------
  // Keys with a lifetime: `SETEX` inside a transaction

  /** `SETEX key seconds value`, its arguments as the strings sent to Redis. */
  datatype SetEx = SetEx(key: string, seconds: string, value: string)

  /** A key Redis holds: its value and its lifetime in seconds. */
  datatype Held = Held(value: string, seconds: int)

  /** Redis's reply to one command of a transaction. */
  datatype Reply = Ok | ReplyError(message: string)

  const NOT_AN_INTEGER: string := "ERR value is not an integer or out of range"
  const INVALID_EXPIRE: string := "ERR invalid expire time in 'setex' command"

  predicate IsDigit(c: char) {
    '0' <= c <= '9'
  }

  /** One or more decimal digits, the first not `0`. */
  predicate Natural(s: string) {
    |s| >= 1 && '1' <= s[0] <= '9' && forall i :: 0 <= i < |s| ==> IsDigit(s[i])
  }

  /** The value of a string of decimal digits. */
  function DigitsValue(s: string): nat
    requires forall i :: 0 <= i < |s| ==> IsDigit(s[i])
    decreases |s|
  {
    if s == [] then 0
    else
      assert IsDigit(s[|s| - 1]);
      DigitsValue(s[..|s| - 1]) * 10 + ((s[|s| - 1] as int) - ('0' as int))
  }

  /**
   * How Redis reads an integer argument: `0`, or decimal digits without a leading zero, optionally after
   * a `-`. Anything else, the empty string included, is not an integer.
   */
  function ParseInteger(s: string): (r: Option<int>)
    ensures s == [] ==> r.None?
  {
    if s == "0" then Some(0)
    else if Natural(s) then Some(DigitsValue(s))
    else if |s| >= 2 && s[0] == '-' && Natural(s[1..]) then Some(0 - DigitsValue(s[1..]) as int)
    else None
  }

  /** One `SETEX`: the seconds must be a positive integer; otherwise an error reply and nothing written. */
  function RunSetEx(held: map<string, Held>, c: SetEx): (r: (map<string, Held>, Reply))
    ensures r.1 == Ok <==> ParseInteger(c.seconds).Some? && ParseInteger(c.seconds).value > 0
    ensures r.1 == Ok ==> r.0 == held[c.key := Held(c.value, ParseInteger(c.seconds).value)]
    ensures r.1 != Ok ==> r.0 == held
  {
    match ParseInteger(c.seconds)
    case None => (held, ReplyError(NOT_AN_INTEGER))
    case Some(n) => if n <= 0 then (held, ReplyError(INVALID_EXPIRE)) else (held[c.key := Held(c.value, n)], Ok)
  }

  /** The keys after `EXEC`, and one reply per queued command. */
  datatype Exec = Exec(held: map<string, Held>, replies: seq<Reply>)

  /** `EXEC`: the queued commands run in order, and an error reply fails only its own command. */
  function ExecAll(held: map<string, Held>, cmds: seq<SetEx>): (r: Exec)
    ensures |r.replies| == |cmds|
    decreases |cmds|
  {
    if cmds == [] then Exec(held, [])
    else
      var step := RunSetEx(held, cmds[0]);
      var rest := ExecAll(step.0, cmds[1..]);
      Exec(rest.held, [step.1] + rest.replies)
  }
}
