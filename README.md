# openpanel event and profile buffering, session stitching and the incoming-event job

A Dafny model of the part of openpanel that takes tracked events from the worker queue into the event
store. It covers the following pieces:

- **List buffers.** The Redis list `op:buffer:<table>` that buffers rows, in the current generic
  `RedisBuffer` and in the older version with a fixed batch size. `insert` appends and asks for a flush.
  `getQueue` reads `LRANGE 0 limit`, which includes both ends. It parses each entry, drops the
  unparseable ones and keeps their raw list positions. `trimIndexes` runs one transaction: `LSET` to
  `__DELETE__` on each index, then `LREM` of every sentinel. `flush` reads the batch, processes it, trims
  it and runs the completion hook, and it has its failure paths.
- **Event flush.** The current `processQueue` sorts the batch oldest first in place. Every event that is
  not a screen view is written. A server event is merged with the last earlier event of its profile when
  there is one. Screen views are grouped by session id. Each view with a successor is written with the
  duration up to that successor, and `__duration_from` is stamped on it. The last view of a session is
  written only when the batch holds that session's `session_end`. The completion hook returns the saved
  events' ids. Its `setex` calls pass their arguments in the wrong order, so Redis refuses each of them and
  no live key is set (see Findings). The older `beforeFlush` groups views without a session id under
  `''`, re-sorts a group on each addition, stamps nothing, and flattens `properties` into the rows.
- **Profile flush.** Dedup through a `Map` keyed by `project_id + id`, after sorting newest first. The
  kept item is merged field by field with the persisted row (`??` precedence, properties spread and then
  flattened by `toDots`). Every batch position is returned.
- **Incoming-event job.** It checks the session-end job of the four device ids in order. A new session
  enqueues a session-end job with delay `SESSION_END_TIMEOUT` = 30·60·1000 + 1000 ms and creates a
  `session_start` 100 ms before the row. A continued session extends the job's delay to
  `(now − job.timestamp) + SESSION_END_TIMEOUT` and joins the session of the `session_start` found in the
  buffer or the store. Server events bypass all of this. The job also builds the property set and the
  payload.
- **Object flattening.** `toDots`, `toObject` and `strip`, with the round trip
  `toObject(toDots(o)) == o` for well-formed nested objects.

The model's choices:

- **Redis and ClickHouse.** They are state of the model: `seq<string>` fields of the two buffer
  classes, and a map of failure records.
- **Outside answers.** Whatever comes from outside is an input: reads that may fail, insert results,
  stored rows, job lookups, the clock, `uuid`, `JSON.parse` and `JSON.stringify`, `deepMergeObjects`,
  the URL, referrer and user-agent parsers.
- **Loops stay loops.** The source's loops become methods with loop invariants. `trimIndexes`, the two
  in-place sorts (a stable insertion sort), both event flushers on the batch array, the profile `Map`
  loop and `toObject` are each proved equal to a reference function. The properties are lemmas about
  those functions.
- **Object identity.** The current event flusher writes copies that share the array items'
  `properties` objects. Identity inside it is modelled by position in the sorted array, so stamping
  `__duration_from` on a written copy also changes the array item, as in the source.

Some behaviours of the code are easy to misread; the model follows the code as written:

- The profile fields at packages/db/src/buffer.ts:239-242 use `??`, so an empty incoming string wins
  over the persisted value.
- The profile dedup sorts the batch under the comment `// Sort by last event first`
  (packages/db/src/buffer.ts:209-214), but `queue.sort((a, b) => b.index - a.index)` puts the newest
  insert first. Each `Map.set` then overwrites, so the entry kept under each key is the item with the
  smallest list position, the oldest insert. The two items are not merged.
- The hook receives `data[index]` for each returned `index`. The index is a raw list position, but it reads
  the array that `processQueue` sorted in place, so it can name a different event. An index past the end
  gives `undefined`, which passes the `!== null` filter.
- The server-merge cut-off `queue.slice(0, item.index)` uses a raw list position on the sorted array.
  Its `findLast` predicate tests the server event's own path, not the candidate's. So a server event can
  be merged with itself (`EventBuffer.SelfMerge`).

## Model

| member | source | states |
|---|---|---|
| ListStore.LRange | packages/db/src/buffers/buffer.ts:93 | `LRANGE 0 stop` is a prefix of the list with `stop + 1` entries (capped at the length); a negative `stop` counts from the end |
| ListStore.LRangeAll | packages/db/src/buffers/event-buffer.ts:166 | `getQueue(-1)` reads the whole list |
| ListStore.Parse | packages/db/src/buffers/buffer.ts:92-108 | one item per parseable entry, carrying its raw list position and parsed value; positions strictly increase; every parseable entry appears |
| ListStore.LSet | packages/db/src/buffers/buffer.ts:86 | `LSET` changes only the targeted position, keeps the length, and changes nothing past the end |
| ListStore.LRemAll | packages/db/src/buffers/buffer.ts:88 | `LREM 0 v` leaves no `v` and never lengthens the list |
| ListStore.MarkAllAt | packages/db/src/buffers/buffer.ts:85-87 | after the `LSET` loop each targeted position holds `__DELETE__` and every other position is unchanged |
| ListStore.Kept | packages/db/src/buffers/buffer.ts:83-90 | the survivor positions increase, and a position survives exactly when it is neither targeted nor already a sentinel |
| ListStore.TrimIsSurvivors | packages/db/src/buffers/buffer.ts:83-90 | the trim transaction equals the reference survivor list: targeted entries and stale sentinels removed, order kept |
| ListStore.SurvivorsAreKept | packages/db/src/buffers/buffer.ts:83-90 | the survivors are the entries at the kept positions, in increasing position order |
| ListStore.TrimSameTargets | packages/db/src/buffers/buffer.ts:83-90 | only the set of target positions matters: duplicates and order of the indexes change nothing |
| ListStore.TrimNothing | packages/db/src/buffers/buffer.ts:83-90 | with no indexes, a list without sentinels is unchanged |
| ListStore.SavedEvents | packages/db/src/buffers/buffer.ts:59-61 | one entry per returned index: the event at that array position of the batch, or undefined past its end |
| ListStore.Filter | packages/db/src/buffers/event-buffer.ts:169 | the kept items are exactly the input items that satisfy the predicate |
| ListStore.First | packages/db/src/buffers/event-buffer.ts:182 | `find` is null exactly when nothing matches; otherwise it is a matching item with no match before it |
| ListStore.FindIsFirstOfFindMany | packages/db/src/buffers/event-buffer.ts:164-188 | `find` returns the first of what `findMany` returns, and null exactly when that is empty (also when the read fails) |
| ListStore.WholeListQueue | packages/db/src/buffers/event-buffer.ts:180-183 | the queue `find`/`findMany` search holds every parseable entry of the whole list at its raw position |
| RedisBuffer.Buffer.constructor | packages/db/src/buffers/buffer.ts:29-38 | the buffer starts on the stored list with no failure records |
| RedisBuffer.Buffer.Insert | packages/db/src/buffers/buffer.ts:44-51 | a rejected `rpush` leaves the list and throws its error; otherwise the serialised value is appended; a rejected `llen` then throws its error; otherwise a flush is requested exactly when the new length reaches the batch size |
| RedisBuffer.Buffer.TrimIndexes | packages/db/src/buffers/buffer.ts:83-90 | the list becomes `TrimList` of the old list: the `LSET` loop proved step by step, then `LREM` |
| RedisBuffer.Buffer.Flush | packages/db/src/buffers/buffer.ts:53-81 | a failed read changes nothing and returns undefined; if processing throws, nothing is trimmed and `<key>:failed:<now>` records the message, the batch's events and `retries: 0`; otherwise the list is trimmed and the result is the indexes, or the hook's result when a hook is set; a throwing trim or hook also writes the record |
| Sorting.SortByFacts | packages/db/src/buffers/event-buffer.ts:58 | the sort is ordered by the key, is a permutation (multiset), and keeps equal keys in input order |
| Sorting.SortInPlace | packages/db/src/buffers/event-buffer.ts:58 | the in-place insertion sort leaves the array equal to the stable sort of its old contents |
| SessionStitch.GroupsFacts | packages/db/src/buffers/event-buffer.ts:96-118 | the grouping `reduce` gives one group per session id, listing that session's grouped positions in increasing order with no other same-session view between consecutive members |
| SessionStitch.MemberNext | packages/db/src/buffers/event-buffer.ts:129-135 | `screenViews[index + 1]` is the next view of the same session in the sorted batch, and is missing exactly for the session's last view |
| SessionStitch.StitchedFacts | packages/db/src/buffers/event-buffer.ts:121-153 | the stitching loops leave every array item as `FinalItem` says and write exactly the views `ViewWritten` selects, each once, as `WrittenView` says |
| EventBuffer.FindLast | packages/db/src/buffers/event-buffer.ts:71-75 | `findLast` is none exactly when nothing matches; otherwise it is a match with no match after it |
| EventBuffer.MergeSourceFacts | packages/db/src/buffers/event-buffer.ts:68-77 | a merge source exists iff the event is a server event with a profile and a non-empty own path and an item of its profile lies before the raw-index cut-off; it is the last such item |
| EventBuffer.PassItemFacts | packages/db/src/buffers/event-buffer.ts:77-92 | a written non-view keeps its list position; it is the item itself without a merge source, else the merged event with `__properties_from` = the source's id and every other property as the merge left it |
| EventBuffer.SelfMerge | packages/db/src/buffers/event-buffer.ts:69-75 | at list position 1 with a sorted batch of one, a server event's merge source is the event itself |
| EventBuffer.PassThroughFacts | packages/db/src/buffers/event-buffer.ts:63-93 | the pass-through adds exactly one item per non-view, in batch order |
| EventBuffer.NonViewsCover | packages/db/src/buffers/event-buffer.ts:63-64 | every non-view position is among those the pass-through visits |
| EventBuffer.ProcessFacts | packages/db/src/buffers/event-buffer.ts:53-162 | the batch is sorted oldest first as a permutation; every non-view is written once (merged or not) and exactly the selected views, once each; each written item keeps its item's list position; at most one written item per batch item |
| EventBuffer.DurationsNonNegative | packages/db/src/buffers/event-buffer.ts:135-147 | a written view with a successor has duration = successor's `created_at` − its own, which is ≥ 0 on the sorted batch, and `__duration_from` = the successor's id |
| EventBuffer.EmptySessionHeldBack | packages/db/src/buffers/event-buffer.ts:100-102 | a screen view without a session id is never written |
| EventBuffer.LastViewIffSessionEnd | packages/db/src/buffers/event-buffer.ts:123-151 | a session's last view is written, unchanged, exactly when the batch holds that session's `session_end` |
| EventBuffer.ViewsInOrder | packages/db/src/buffers/event-buffer.ts:129-131 | `screenViews.slice().sort(sortOldestFirst)` equals `screenViews`, so indexing the unsorted group by the sorted index is sound |
| EventBuffer.WrittenIndexes | packages/db/src/buffers/event-buffer.ts:161 | the returned positions are positions of batch items, and they include every non-view's and every selected view's |
| EventBuffer.ProcessQueueResultFacts | packages/db/src/buffers/event-buffer.ts:155-161 | `processQueue` throws exactly when the insert throws, with that error; otherwise it returns at most one position per batch item, covering every written item |
| EventBuffer.PassThroughLoop | packages/db/src/buffers/event-buffer.ts:63-93 | the `forEach` over the sorted array computes the reference pass-through |
| EventBuffer.StitchSession | packages/db/src/buffers/event-buffer.ts:129-152 | one session's `forEach` leaves the array and the write set as the reference stitching of that group says |
| EventBuffer.StitchAll | packages/db/src/buffers/event-buffer.ts:121-153 | the loop over the sessions leaves the array and the write set as the reference stitching of all groups |
| EventBuffer.ProcessQueue | packages/db/src/buffers/event-buffer.ts:53-162 | on the batch array, the method leaves the array and returns the outcome exactly as `ProcessQueueResult` of the old contents |
| EventBuffer.OnCompleted | packages/db/src/buffers/event-buffer.ts:36-51 | the hook returns the saved events' ids in order; an undefined saved entry throws; a rejected transaction throws its error; no key changes, and after a successful `exec` every reply is Redis's not-an-integer error |
| EventBuffer.LiveKeysNeverSet | packages/db/src/buffers/event-buffer.ts:42-46 | `setex(key, '', 60 * 5)` puts `''` in the seconds position, so every queued `SETEX` is refused and no key is written |
| EventBuffer.IntendedLiveKeysSet | packages/db/src/buffers/event-buffer.ts:42-46 | with 300 as the seconds and `''` as the value, every saved event's `live:event:<project_id>:<profile_id>` key holds `''` for 300 s, every reply is OK, and every other key is unchanged |
| EventBuffer.OnCompletedIntended | packages/db/src/buffers/event-buffer.ts:36-51 | the hook as evidently meant: the same result as `OnCompleted`, and on success every saved event's live key is held for 300 s |
| ListStore.RunSetEx | packages/db/src/buffers/event-buffer.ts:42-46 | Redis's `SETEX` succeeds exactly when the seconds argument reads as a positive integer, and then sets the key to the value for that many seconds; otherwise it writes nothing |
| LegacyBuffer.Buffer.constructor | packages/db/src/buffer.ts:30-48 | the older buffer starts on the stored list, the error list and a fixed batch size |
| LegacyBuffer.Buffer.Insert | packages/db/src/buffer.ts:54-61 | a rejected `rpush` leaves the list and throws its error; otherwise the serialised value is appended; a rejected `llen` then throws its error; otherwise a flush is requested exactly when the length reaches the fixed batch size |
| LegacyBuffer.Buffer.TrimIndexes | packages/db/src/buffer.ts:80-87 | the list becomes `TrimList` of the old list, the same semantics as the generic buffer |
| LegacyBuffer.Buffer.Flush | packages/db/src/buffer.ts:63-78 | reads `LRANGE 0 batchSize`; every error ends in undefined; a failed read changes nothing; a failed trim leaves the list; the callback's error entry is pushed when that push succeeds; otherwise trimmed and the indexes or the hook's result are returned |
| LegacyBuffer.LegacyGroupsAre | packages/db/src/buffer.ts:313-335 | on the sorted batch, re-sorting each group on every addition is a no-op: the grouping is the plain one, keeping views without a session id under `''` |
| LegacyBuffer.LegacyFacts | packages/db/src/buffer.ts:297-365 | sorted oldest first as a permutation; every non-view written as it is; exactly the selected views written, once each, with no `__duration_from` and the array untouched |
| LegacyBuffer.LegacyDurations | packages/db/src/buffer.ts:346-359 | a view with a successor is written with duration = successor's time − own time ≥ 0, even without a session id, and with unchanged properties |
| LegacyBuffer.LegacyViewWithSuccessorWritten | packages/db/src/buffer.ts:346-359 | every view with a successor in its group is written, whatever its session id |
| LegacyBuffer.LegacyLastViewIffSessionEnd | packages/db/src/buffer.ts:338-363 | a group's last view is written, unchanged, exactly when the batch has that session's `session_end` |
| LegacyBuffer.EventsBeforeFlushFacts | packages/db/src/buffer.ts:367-393 | the batch is left sorted; on insert success, no error entry and the positions of every non-view and selected view, at most one per batch item; on failure, no position and the written items for the error list |
| LegacyBuffer.BeforeFlushEvents | packages/db/src/buffer.ts:291-394 | on the batch array the method leaves the array and returns indexes and error entry exactly as `EventsBeforeFlush` of the old contents |
| LegacyBuffer.Rows | packages/db/src/buffer.ts:370-373 | each inserted row is its event with `properties` replaced by their `toDots` flattening |
| LegacyBuffer.OnCompleted | packages/db/src/buffer.ts:279-290 | for each saved event in order, the live key is set for 300 s, and the ids are returned; an undefined entry throws after the earlier events' keys are set |
| ProfileBuffer.MapSetFacts | packages/db/src/buffer.ts:213 | `Map.set` keeps keys unique, keeps every existing key in place, leaves other entries alone and makes the key hold the new item |
| ProfileBuffer.SetAllFacts | packages/db/src/buffer.ts:212-214 | after the `forEach`, one entry per key, each holding the last item set under that key, and every item's key present |
| ProfileBuffer.KeepsOldest | packages/db/src/buffer.ts:210-214 | on the batch sorted newest first, the item kept under a key has the smallest list position of its key |
| ProfileBuffer.ConcatenationCollides | packages/db/src/buffer.ts:213 | profiles ("c", project "ab") and ("bc", project "a") collapse into one entry |
| ProfileBuffer.MergeRow | packages/db/src/buffer.ts:237-250 | `id`, `project_id` and `is_external` come from the incoming item, `created_at` is now, and every property value is a string |
| ProfileBuffer.MergePrecedence | packages/db/src/buffer.ts:239-242 | each name field is the incoming value when present (even `''`), else the persisted value, else `''` |
| ProfileBuffer.SpreadGet | packages/db/src/buffer.ts:243-246 | spreading distinct keys: a key of the spread object takes its value there, any other key keeps its value |
| ProfileBuffer.MergedPropertiesGet | packages/db/src/buffer.ts:243-246 | before flattening, an incoming property overrides the persisted one and every other persisted property stays |
| ProfileBuffer.NewestFirstIndexes | packages/db/src/buffer.ts:210 | the sorted batch's positions are the batch's positions, each one kept |
| ProfileBuffer.NewestFirstOrder | packages/db/src/buffer.ts:210 | the positions of the sorted batch are in descending order |
| ProfileBuffer.ProfilesBeforeFlushFacts | packages/db/src/buffer.ts:216-271 | success iff the query succeeds and the insert of the merged rows succeeds; then every batch position is returned (collapsed duplicates included) newest first; otherwise none, and the sorted batch goes to the error list |
| ProfileBuffer.BeforeFlushProfiles | packages/db/src/buffer.ts:206-272 | on the batch array (sort in place, `Map` loop, merge, insert) the method leaves the array and returns exactly what `ProfilesBeforeFlush` of the old contents says |
| IncomingEvent.OrElse | apps/worker/src/jobs/events.incoming-event.ts:72 | `a \|\| b` gives `a` when it is a non-empty string, otherwise `b` |
| IncomingEvent.GetProperty | apps/worker/src/jobs/events.incoming-event.ts:37-46 | a truthy property is returned as is; the result is never null or undefined |
| IncomingEvent.GetPropertyFallback | apps/worker/src/jobs/events.incoming-event.ts:41 | when `__x` is absent or falsy, `getProperty('__x')` reads `x`, null reading as absent |
| IncomingEvent.OmitGet | apps/worker/src/jobs/events.incoming-event.ts:70 | `omit` leaves every other key's value unchanged |
| IncomingEvent.ServerPropertiesFacts | apps/worker/src/jobs/events.incoming-event.ts:70 | the server event's properties have no `__path` and no `__referrer`, and every other key keeps its posted value |
| IncomingEvent.BrowserPropertiesFacts | apps/worker/src/jobs/events.incoming-event.ts:148-151 | the browser event's properties drop `__path` and `__referrer`, set `__hash` and `__query` to the parsed page's, and keep every other posted key |
| IncomingEvent.GetSessionEnd | apps/worker/src/jobs/events.incoming-event.ts:188-250 | a session end found belongs to one of the four device ids |
| IncomingEvent.GetSessionEndPrecedence | apps/worker/src/jobs/events.incoming-event.ts:205-249 | none exactly when no device id has a job; otherwise the job of the first device id, in the order current, previous, current deprecated, previous deprecated, that has one |
| IncomingEvent.JobIdHasPrefix | apps/worker/src/jobs/events.incoming-event.ts:119 | a new session's job id starts with the prefix `sessionEnd:<projectId>:<deviceId>:` that `getSessionEnd` searches for |
| IncomingEvent.ExtendedDelay | apps/worker/src/jobs/events.incoming-event.ts:124-125 | the new delay is the job's age plus `SESSION_END_TIMEOUT`: counted from the job's creation, it would end `SESSION_END_TIMEOUT` after now |
| IncomingEvent.ExtendedFireTime | apps/worker/src/jobs/events.incoming-event.ts:124-125 | `changeDelay` counts from the call, so the moved job fires `SESSION_END_TIMEOUT` after now plus the job's age, later than now + `SESSION_END_TIMEOUT` for any job created before now |
| IncomingEvent.ServerEvent | apps/worker/src/jobs/events.incoming-event.ts:64-92 | device and session come from the profile's last screen view, if any, else `''`; duration 0; the event's own time and project |
| IncomingEvent.ServerGeoFallback | apps/worker/src/jobs/events.incoming-event.ts:72-74 | country, city and region: the last view's if non-empty, else the geo lookup's if non-empty, else `''` |
| IncomingEvent.BrowserEvent | apps/worker/src/jobs/events.incoming-event.ts:142-173 | the row carries the chosen device id and session id, duration 0, the event's own time, project and profile |
| IncomingEvent.SessionStart | apps/worker/src/jobs/events.incoming-event.ts:175-183 | the `session_start` equals the main row except that it is named `session_start` and dated `SESSION_START_OFFSET` = 100 ms earlier |
| IncomingEvent.FindSessionStart | apps/worker/src/jobs/events.incoming-event.ts:128-140 | a `session_start` found in the buffer is returned; when the buffer has none (or cannot be read), the store's newest one is returned |
| IncomingEvent.IncomingEventJob | apps/worker/src/jobs/events.incoming-event.ts:22-186 | server event: one row, joined to the last screen view, with no session-job effect. New session: enqueue the session-end job on the current device (delay `SESSION_END_TIMEOUT`), then the `session_start`, then the row with the fresh uuid. Open job: extend its delay, then the row on that job's device in the found `session_start`'s session |
| IncomingEvent.CreateRows | apps/worker/src/jobs/events.incoming-event.ts:128-185 | after the job effect, the `session_start` (new session only) and the row, with the session id chosen as the source does |
| ObjectUtil.ArrayEntries | packages/common/src/object.ts:8 | `Object.entries` of an array keys each element by its decimal index |
| ObjectUtil.ToDots | packages/common/src/object.ts:4-22 | every value is a string and every key starts with the path prefix; what each kind of entry adds is stated by `LaterLeafWins`, `NestedIsSpread` and `ArrayIsSpread` |
| ObjectUtil.DotStep | packages/common/src/object.ts:9-20 | one reduce step keeps all values strings and all keys under the prefix |
| ObjectUtil.LaterLeafWins | packages/common/src/object.ts:14-20 | on a key collision the later leaf wins; a leaf's value is its trimmed string, `'null'` for null, or `String(...)` |
| ObjectUtil.NestedIsSpread | packages/common/src/object.ts:9-13 | a nested object is flattened under `path + key + '.'` and spread over what came before |
| ObjectUtil.ArrayIsSpread | packages/common/src/object.ts:9-13 | an array is recursed into like an object: its elements, keyed by decimal index, are flattened under `path + key + '.'` and spread over what came before |
| ObjectUtil.EmptyObjectAddsNothing | packages/common/src/object.ts:9-13 | an empty nested object contributes no keys |
| ObjectUtil.ToObject | packages/common/src/object.ts:24-32 | the `forEach` that reassigns `result` computes the `assocPath` fold over the entries |
| ObjectUtil.DotFreeKeyIsTopLevel | packages/common/src/object.ts:29 | a dot-free key becomes a top-level entry |
| ObjectUtil.Strip | packages/common/src/object.ts:34 | every kept entry is an input entry whose value is neither nil nor empty, and every such input entry is kept; no more entries than the input |
| ObjectUtil.StripConcat | packages/common/src/object.ts:34 | `reject` works entry by entry: stripping `a + b` gives the survivors of `a` followed by those of `b`, so the kept entries stay in input order |
| ObjectUtil.StripOne | packages/common/src/object.ts:34 | a single entry is kept unchanged exactly when its value is neither nil nor empty, otherwise dropped |
| JsStrings.TrimIsTrimmed | packages/common/src/object.ts:19 | `trim` leaves no white space at either end |
| JsStrings.SplitJoin | packages/common/src/object.ts:29 | splitting joined dot-free segments on `.` gives the segments back |
| ObjectRoundTrip.DotsFromFlat | packages/common/src/object.ts:8-21 | on well-formed input, `toDots` appends each leaf under its dot-joined key path, in entry order |
| ObjectRoundTrip.AssocAllRender | packages/common/src/object.ts:24-32 | `toObject` on rendered leaf paths places each value at its split path |
| ObjectRoundTrip.ToObjectToDots | packages/common/src/object.ts:4-32 | `toObject(toDots(o)) == o` for objects with unique dot-free keys, no empty nested objects and trimmed string leaves |

## Left out

- A failing `hset` in the error path of `flush` is not modelled; the failure record is always written.
- IncomingEvent.ExtendedDelay: the model keeps the code's delay and does not correct it. Because `changeDelay` counts from the call, an extended session-end job fires later the older the job is (`IncomingEvent.ExtendedFireTime`). Whether that lateness is intended cannot be told from the code, so this is not listed as a finding.
- ListStore.ParseInteger: the 64-bit range check Redis applies to integer arguments is left out; only the syntax is modelled.
- Concurrency: races between `insert` and `flush`, and flushes that overlap, are not modelled. The `multi` transactions are single atomic steps.
- The `flush` triggered inside `insert` is not awaited in the source. The model returns a flag asking for it instead of running it.
- Logging, `redisPub.publish` with SuperJSON, and the `transformEvent`/`transformProfile` conversions are not modelled; the conversions are parameters.
- `JSON.parse`, `JSON.stringify`, `Date` parsing, `new Date()`, `Date.now()` and `uuid()` are opaque inputs. Times are integer milliseconds and one `now` serves both `Date.now()` calls of the job.
- `batchSize()` of the generic buffer is abstract, so it is a parameter, and a rejected `batchSize()` is not modelled. Parsing the `BATCH_SIZE` environment variable is left out.
- RedisBuffer.Buffer: the abstract `table` and `batchSize()` of packages/db/src/buffers/buffer.ts:19-20 are a constructor argument and a per-call parameter. The `EventBuffer` subclass at packages/db/src/buffers/event-buffer.ts defines neither. Its `super({table: 'events', redis})` goes to a constructor that reads only `redis` and `onCompleted` (buffers/buffer.ts:29-38). As written, its key is therefore `op:buffer:undefined` and `this.batchSize()` throws in `insert` and `flush`. The model does not capture this, because that subclass is not instantiated in the code modelled here.
- The SQL of the persisted-profile query and of the stored-event lookups (including quoting and escaping) is left out. Their results are inputs.
- `deepMergeObjects`: its result is a parameter. Whether it returns a fresh `properties` object or aliases one of its arguments is not modelled; the `__properties_from` write is applied to the merged copy only.
- `redis.keys` and `findJobByPrefix` are one lookup from job-id prefix to job. `changeDelay` and `eventsQueue.add` are returned as effects, not performed.
- Longitude, latitude, `__hash` and `__query` are passed through as JSON values. Floating point is not modelled. Numbers are integers (`JNum(int)`), so `String(x)` of a non-integer number is not modelled.
- `Object.entries` lists integer-like keys first in JavaScript. The model keeps insertion order for every key.
- `toDots` of a string receiver and the `Date`/class-instance cases of `typeof value === 'object'` are not modelled. Values are null, undefined, booleans, numbers, strings, arrays and objects.
- `getSafeJson` and `getSuperJson` are JSON and SuperJSON parsing wrappers and are not part of this model.
- The worker bootstrap, cron dispatch, the API controller and the queue construction are not part of this model.
- ListStore.Filter: states membership in both directions, not that the kept items stay in input order. The definition keeps the order.
- IncomingEvent.GetProperty: states only the truthy case and that null reads as absent; the fallback case is `IncomingEvent.GetPropertyFallback`.
- ProfileBuffer.MergeRow: a queued profile always has a `project_id` in the model, so the fallback `profile?.project_id ?? ''` is not modelled.

## Findings

| source | as written | input that shows it | evidently intended | confidence | as-written member | corrected member |
|---|---|---|---|---|---|---|
| packages/db/src/buffers/event-buffer.ts:42-46 | `multi.setex(key, '', 60 * 5)` sends `''` as the seconds and 300 as the value | any flush whose hook runs with one saved event: Redis answers the queued `SETEX` with "value is not an integer or out of range" and no `live:event:` key is set | `setex(key, 60 * 5, '')`, a key kept for 300 s, as the older hook's `set(key, '', 'EX', 60 * 5)` does | high; not executed | EventBuffer.LiveKeysNeverSet | EventBuffer.IntendedLiveKeysSet |
