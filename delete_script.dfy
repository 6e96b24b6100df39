/**
 * The server-side Lua program of DeleteAllEntriesInRegionCommand: enumerate the keys matching
 * KEYS[1], delete them one by one, and stop early when the counter equals the limit KEYS[2].
 */
module DeleteScript {
  import opened Wrappers
  import opened JavaStrings

  /** The Lua values the script compares. */
  datatype LuaValue = Nil | Number(n: int) | LuaString(s: string)

  /** Lua's `==`: values of different types are never equal; there is no coercion. */
  predicate LuaEquals(a: LuaValue, b: LuaValue) {
    match (a, b)
    case (Nil, Nil) => true
    case (Number(x), Number(y)) => x == y
    case (LuaString(x), LuaString(y)) => x == y
    case _ => false
  }

  /**
   * The script in the source compares the counter with KEYS[2], a string. The corrected script
   * compares it with tonumber(KEYS[2]).
   */
  datatype Script = DeleteBatchAsWritten | DeleteBatchCapped

  function LimitValue(script: Script, limitArg: string): LuaValue {
    match script
    case DeleteBatchAsWritten => LuaString(limitArg)
    case DeleteBatchCapped =>
      match ToNumber(limitArg)
      case None => Nil
      case Some(v) => Number(v)
  }

  /**
   * The number of keys the loop deletes when n keys match and c have been deleted: one more
   * per turn until the keys run out or the counter equals the limit.
   */
  function Deletions(c: nat, n: nat, limit: LuaValue): nat
    requires c <= n
    decreases n - c
  {
    if c == n || LuaEquals(Number(c), limit) then c else Deletions(c + 1, n, limit)
  }

  /** The count one run of a script returns when n keys match the pattern. */
  function BatchDeletions(script: Script, n: nat, limitArg: string): nat {
    Deletions(0, n, LimitValue(script, limitArg))
  }

  /** Against a limit that is not a number the counter is never equal: everything is deleted. */
  lemma {:induction false} DeletionsUncapped(c: nat, n: nat, limit: LuaValue)
    requires c <= n && !limit.Number?
    ensures Deletions(c, n, limit) == n
    decreases n - c
  {
    if c < n {
      DeletionsUncapped(c + 1, n, limit);
    }
  }

  /** Against a number v the loop stops at v when v is still ahead of the counter. */
  lemma {:induction false} DeletionsCapped(c: nat, n: nat, v: int)
    requires c <= n
    ensures Deletions(c, n, Number(v)) == if c <= v < n then v else n
    decreases n - c
  {
    if c < n && c != v {
      DeletionsCapped(c + 1, n, v);
    }
  }

  /** As written, a batch deletes every matching key whatever its limit. */
  lemma AsWrittenIgnoresLimit(n: nat, limitArg: string)
    ensures BatchDeletions(DeleteBatchAsWritten, n, limitArg) == n
  {
    DeletionsUncapped(0, n, LuaString(limitArg));
  }

  /** The input that shows it: two matching keys, limit "1", and the batch deletes both. */
  lemma AsWrittenExceedsLimitOfOne()
    ensures ValueOf(1) == "1"
    ensures BatchDeletions(DeleteBatchAsWritten, 2, ValueOf(1)) == 2 > 1
  {
    AsWrittenIgnoresLimit(2, ValueOf(1));
  }

  /** The corrected script deletes min(limit, matching) keys for a limit written by String.valueOf. */
  lemma CappedHonoursLimit(n: nat, max: int)
    ensures BatchDeletions(DeleteBatchCapped, n, ValueOf(max)) == if 0 <= max < n then max else n
    ensures max >= 0 ==> BatchDeletions(DeleteBatchCapped, n, ValueOf(max)) <= max
  {
    ToNumberOfValueOf(max);
    DeletionsCapped(0, n, max);
  }

  /**
   * Either script deletes at least one key when some key matches, unless the corrected
   * script gets limit 0.
   */
  lemma BatchMakesProgress(script: Script, n: nat, max: int)
    requires n > 0 && (script == DeleteBatchAsWritten || max != 0)
    ensures 1 <= BatchDeletions(script, n, ValueOf(max)) <= n
  {
    match script
    case DeleteBatchAsWritten => AsWrittenIgnoresLimit(n, ValueOf(max));
    case DeleteBatchCapped => CappedHonoursLimit(n, max);
  }

  /** With limit 0 the corrected script returns before deleting anything. */
  lemma CappedZeroLimitDeletesNothing(n: nat)
    ensures BatchDeletions(DeleteBatchCapped, n, ValueOf(0)) == 0
  {
    CappedHonoursLimit(n, 0);
  }
}
