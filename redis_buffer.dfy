/**
 * The generic list buffer: values are appended to the Redis list `op:buffer:<table>` as serialised
 * strings, and a flush reads a batch, hands it to the concrete buffer's `processQueue`, removes what was
 * processed and calls the completion hook. Failures of `processQueue`, of the trimming transaction or of
 * the hook are recorded under `<key>:failed:<timestamp>`.
 */
module RedisBuffer {
  import opened Wrappers
  import JsStrings
  import opened ListStore

  /** The hash written for a failed flush. */
  datatype FailedRecord<T> = FailedRecord(error: string, data: seq<T>, retries: nat)

  class Buffer<T> {
    const table: string
    /** `JSON.stringify` and `JSON.parse` for this buffer's values. */
    const encode: T -> string
    const decode: string -> Option<T>
    /** The Redis list at `Key(table)`. */
    var list: seq<string>
    /** The `<key>:failed:<timestamp>` hashes written so far. */
    var failed: map<string, FailedRecord<T>>

    constructor (table: string, encode: T -> string, decode: string -> Option<T>, stored: seq<string>)
      ensures this.table == table && this.encode == encode && this.decode == decode
      ensures list == stored && failed == map[]
    {
      this.table := table;
      this.encode := encode;
      this.decode := decode;
      list := stored;
      failed := map[];
    }

    function FailedKey(timestamp: int): string {
      Key(table) + ":failed:" + JsStrings.IntToString(timestamp)
    }

    /**
     * `rpush` the serialised value, then ask for a flush when `llen` has reached the batch size. A rejected
     * `rpush` (`pushError`) leaves the list alone; a rejected `llen` (`lenError`) comes after the push. Either
     * makes `insert` throw that error without asking for a flush.
     */
    method Insert(value: T, batchSize: int, pushError: Option<Thrown>, lenError: Option<Thrown>)
      returns (r: Result<bool, Thrown>)
      modifies this
      ensures pushError.Some? ==> list == old(list) && r == Failure(pushError.value)
      ensures pushError.None? ==> list == old(list) + [encode(value)]
      ensures pushError.None? && lenError.Some? ==> r == Failure(lenError.value)
      ensures pushError.None? && lenError.None? ==> r.Success? && (r.value <==> |list| >= batchSize)
      ensures failed == old(failed)
    {
      if pushError.Some? {
        return Failure(pushError.value);
      }
      list := list + [encode(value)];
      if lenError.Some? {
        return Failure(lenError.value);
      }
      r := Success(|list| >= batchSize);
    }

    /** One `multi`: `LSET` each index to the sentinel, then `LREM 0` every sentinel. */
    method TrimIndexes(indexes: seq<nat>)
      modifies this
      ensures list == TrimList(old(list), indexes)
      ensures failed == old(failed)
    {
      var k := 0;
      while k < |indexes|
        invariant 0 <= k <= |indexes|
        invariant list == MarkAll(old(list), indexes[..k])
        invariant failed == old(failed)
      {
        assert indexes[..k + 1][..k] == indexes[..k];
        list := LSet(list, indexes[k], DELETE);
        k := k + 1;
      }
      assert indexes[..k] == indexes;
      list := LRemAll(list, DELETE);
    }

    /**
     * `flush()`. `readOk` is whether reading the batch (and the batch size) succeeded, `process` is the
     * concrete buffer's `processQueue`, `trimError` the rejection of the trimming transaction if any,
     * `hook` the optional `onCompleted` (which may throw) and `now` the timestamp of a failure record.
     */
    method Flush<R>(batchSize: int, readOk: bool, process: seq<QueueItem<T>> -> Processed<T>,
                    trimError: Option<Thrown>, hook: Option<seq<Option<T>> -> Result<R, Thrown>>, now: int)
      returns (r: FlushReturn<R>)
      modifies this
      ensures !readOk ==> r == Undefined && list == old(list) && failed == old(failed)
      ensures readOk ==>
        var p := process(GetQueue(old(list), batchSize, decode));
        match p.outcome
        case Failure(e) =>
          r == Undefined && list == old(list) && failed == old(failed)[FailedKey(now) := FailedRecord(ErrorMessage(e), Events(p.data), 0)]
        case Success(indexes) =>
          match trimError
          case Some(e) =>
            r == Undefined && list == old(list) && failed == old(failed)[FailedKey(now) := FailedRecord(ErrorMessage(e), Events(p.data), 0)]
          case None =>
            list == TrimList(old(list), indexes) &&
            match hook
            case None => r == ReturnedIndexes(indexes) && failed == old(failed)
            case Some(h) =>
              match h(SavedEvents(p.data, indexes))
              case Success(v) => r == HookResult(v) && failed == old(failed)
              case Failure(e) =>
                r == Undefined && failed == old(failed)[FailedKey(now) := FailedRecord(ErrorMessage(e), Events(p.data), 0)]
    {
      if !readOk {
        return Undefined;
      }
      var data := GetQueue(list, batchSize, decode);
      var p := process(data);
      var error: Thrown;
      match p.outcome {
        case Failure(e) =>
          error := e;
        case Success(indexes) =>
          match trimError {
            case Some(e) =>
              error := e;
            case None =>
              TrimIndexes(indexes);
              var saved := SavedEvents(p.data, indexes);
              match hook {
                case None =>
                  return ReturnedIndexes(indexes);
                case Some(h) =>
                  match h(saved) {
                    case Success(v) =>
                      return HookResult(v);
                    case Failure(e) =>
                      error := e;
                  }
              }
          }
      }
      failed := failed[FailedKey(now) := FailedRecord(ErrorMessage(error), Events(p.data), 0)];
      r := Undefined;
    }
  }
}
