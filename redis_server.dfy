/**
 * The part of a Redis server the repository talks to, as a state machine: a keyspace of hashes
 * with optional expiry, a script cache addressed by SHA-1 digest, and a fault table standing for
 * a server or a connection that answers a kind of command with an exception.
 */
module Redis {
  import opened Wrappers
  import opened JavaStrings
  import opened CacheRepository
  import opened DeleteScript

  /** A stored hash and its time to live in seconds (None: persistent). */
  datatype Stored = Stored(entry: Entry, expiry: Option<int>)

  /** The kinds of command a client issues; CONNECT is taking a connection from the pool. */
  datatype Command = CONNECT | HGETALL | HGET | HMSET | MULTI | DEL | EVALSHA | SCRIPT_LOAD

  /** The error reply to EVALSHA of a digest not loaded: its error code, then a text. */
  const NOSCRIPT_CODE: string := "NOSCRIPT"
  const NOSCRIPT_MESSAGE: string := NOSCRIPT_CODE + " No matching script. Please use EVAL."

  /** The NOSCRIPT error reply starts with its error code. */
  lemma NoscriptReplyHasCode()
    ensures StartsWith(NOSCRIPT_MESSAGE, "NOSCRIPT")
  {
    assert NOSCRIPT_MESSAGE[..|NOSCRIPT_CODE|] == NOSCRIPT_CODE;
  }

  /** A lower-case hexadecimal SHA-1 digest, as SCRIPT LOAD returns it. */
  predicate IsSha1Hex(s: string) {
    |s| == 40 && forall i :: 0 <= i < |s| ==> s[i] in "0123456789abcdef"
  }

  /**
   * The KEYS match for the patterns the cache issues: a pattern ending in `*` matches the keys
   * that start with the rest of it; any other pattern matches itself.
   */
  predicate GlobMatches(pattern: string, key: string) {
    if pattern != [] && pattern[|pattern| - 1] == '*' then StartsWith(key, pattern[..|pattern| - 1])
    else key == pattern
  }

  /** The reply of KEYS pattern, as a set. */
  function MatchingKeys(store: map<string, Stored>, pattern: string): (ks: set<string>)
    ensures forall k :: k in ks <==> k in store && GlobMatches(pattern, k)
  {
    set k | k in store && GlobMatches(pattern, k)
  }

  /** Deleting keys removes them, and nothing else, from every KEYS reply. */
  lemma MatchingAfterDelete(store: map<string, Stored>, pattern: string, deleted: set<string>)
    ensures MatchingKeys(store - deleted, pattern) == MatchingKeys(store, pattern) - deleted
  {
  }

  /** Removing a subset of a finite set removes exactly its size. */
  lemma {:induction false} SizeOfDifference(a: set<string>, d: set<string>)
    requires d <= a
    ensures |a - d| == |a| - |d|
    decreases |d|
  {
    if d != {} {
      var x :| x in d;
      SizeOfDifference(a - {x}, d - {x});
      assert a - {x} - (d - {x}) == a - d;
    }
  }

  class RedisServer {
    var store: map<string, Stored>
    var scripts: map<string, Script>
    /** The commands that reached the server and could change it, in order. */
    var log: seq<Command>
    /** The batch limit argument of the last EVALSHA received. */
    var lastEvalShaLimit: Option<string>
    /** The error each listed kind of command fails with. */
    const faults: map<Command, BackendError>
    /** The digest SCRIPT LOAD computes for a script. */
    const sha1: Script -> string

    /** The script cache is content-addressed and digests are 40 hex digits. */
    predicate Valid()
      reads this
    {
      && (forall s: Script :: IsSha1Hex(sha1(s)))
      && sha1(DeleteBatchAsWritten) != sha1(DeleteBatchCapped)
      && forall sha | sha in scripts :: sha1(scripts[sha]) == sha
    }

    /** The fault, if any, that a command of the given kind meets. */
    function FaultFor(c: Command): (f: Option<BackendError>)
      ensures f.Some? <==> CONNECT in faults || c in faults
      ensures CONNECT in faults ==> f == Some(faults[CONNECT])
      ensures CONNECT !in faults && c in faults ==> f == Some(faults[c])
    {
      if CONNECT in faults then Some(faults[CONNECT])
      else if c in faults then Some(faults[c])
      else None
    }

    constructor(store: map<string, Stored>, faults: map<Command, BackendError>, sha1: Script -> string)
      requires forall s: Script :: IsSha1Hex(sha1(s))
      requires sha1(DeleteBatchAsWritten) != sha1(DeleteBatchCapped)
      ensures Valid()
      ensures this.store == store && this.faults == faults && this.sha1 == sha1
      ensures scripts == map[] && log == [] && lastEvalShaLimit == None
    {
      this.store := store;
      this.faults := faults;
      this.sha1 := sha1;
      scripts := map[];
      log := [];
      lastEvalShaLimit := None;
    }

    /** HGETALL key: the stored hash, None for a missing key (Redis answers an empty map). */
    function HGetAllReply(key: string): (r: Result<Option<Entry>, BackendError>)
      reads this
      ensures FaultFor(HGETALL).Some? <==> r.Failure?
      ensures r.Failure? ==> Some(r.error) == FaultFor(HGETALL)
      ensures r.Success? ==> (r.value.Some? <==> key in store)
      ensures r.Success? && key in store ==> r.value == Some(store[key].entry)
    {
      match FaultFor(HGETALL)
      case Some(e) => Failure(e)
      case None => Success(if key in store then Some(store[key].entry) else None)
    }

    /** HGET key etag: the stored etag field, None for a missing key. */
    function HGetEtagReply(key: string): (r: Result<Option<string>, BackendError>)
      reads this
      ensures FaultFor(HGET).Some? <==> r.Failure?
      ensures r.Failure? ==> Some(r.error) == FaultFor(HGET)
      ensures r.Success? ==> (r.value.Some? <==> key in store)
      ensures r.Success? && key in store ==> r.value == Some(store[key].entry.etag)
    {
      match FaultFor(HGET)
      case Some(e) => Failure(e)
      case None => Success(if key in store then Some(store[key].entry.etag) else None)
    }

    /** HMSET key fields: overwrites the hash and keeps the key's time to live. */
    method HMSet(key: string, e: Entry) returns (r: Result<(), BackendError>)
      modifies this
      ensures log == old(log) + [HMSET] && scripts == old(scripts) && lastEvalShaLimit == old(lastEvalShaLimit)
      ensures r.Failure? <==> FaultFor(HMSET).Some?
      ensures r.Failure? ==> Some(r.error) == FaultFor(HMSET) && store == old(store)
      ensures r.Success? ==>
        store == old(store)[key := Stored(e, if key in old(store) then old(store)[key].expiry else None)]
    {
      log := log + [HMSET];
      var fault := FaultFor(HMSET);
      if fault.Some? {
        return Failure(fault.value);
      }
      var expiry := if key in store then store[key].expiry else None;
      store := store[key := Stored(e, expiry)];
      return Success(());
    }

    /**
     * MULTI; HMSET key fields; EXPIRE key seconds; EXEC. EXPIRE with a time to live that is not
     * positive deletes the key instead.
     */
    method MultiHMSetExpire(key: string, e: Entry, seconds: int) returns (r: Result<(), BackendError>)
      modifies this
      ensures log == old(log) + [MULTI] && scripts == old(scripts) && lastEvalShaLimit == old(lastEvalShaLimit)
      ensures r.Failure? <==> FaultFor(MULTI).Some?
      ensures r.Failure? ==> Some(r.error) == FaultFor(MULTI) && store == old(store)
      ensures r.Success? ==>
        store == if seconds > 0 then old(store)[key := Stored(e, Some(seconds))] else old(store) - {key}
    {
      log := log + [MULTI];
      var fault := FaultFor(MULTI);
      if fault.Some? {
        return Failure(fault.value);
      }
      if seconds > 0 {
        store := store[key := Stored(e, Some(seconds))];
      } else {
        store := store - {key};
      }
      return Success(());
    }

    /** DEL key: the number of keys removed. */
    method Del(key: string) returns (r: Result<int, BackendError>)
      modifies this
      ensures log == old(log) + [DEL] && scripts == old(scripts) && lastEvalShaLimit == old(lastEvalShaLimit)
      ensures r.Failure? <==> FaultFor(DEL).Some?
      ensures r.Failure? ==> Some(r.error) == FaultFor(DEL) && store == old(store)
      ensures r.Success? ==> store == old(store) - {key} && r.value == if key in old(store) then 1 else 0
    {
      log := log + [DEL];
      var fault := FaultFor(DEL);
      if fault.Some? {
        return Failure(fault.value);
      }
      r := Success(if key in store then 1 else 0);
      store := store - {key};
    }

    /** SCRIPT LOAD: caches the script under its digest and returns the digest. */
    method ScriptLoad(script: Script) returns (r: Result<string, BackendError>)
      requires Valid()
      modifies this
      ensures Valid() && log == old(log) + [SCRIPT_LOAD] && store == old(store) && lastEvalShaLimit == old(lastEvalShaLimit)
      ensures r.Failure? <==> FaultFor(SCRIPT_LOAD).Some?
      ensures r.Failure? ==> Some(r.error) == FaultFor(SCRIPT_LOAD) && scripts == old(scripts)
      ensures r.Success? ==> r.value == sha1(script) && scripts == old(scripts)[sha1(script) := script]
    {
      log := log + [SCRIPT_LOAD];
      var fault := FaultFor(SCRIPT_LOAD);
      if fault.Some? {
        return Failure(fault.value);
      }
      scripts := scripts[sha1(script) := script];
      return Success(sha1(script));
    }

    /** SCRIPT FLUSH, or a restart of the server: the script cache is emptied. */
    method FlushScripts()
      requires Valid()
      modifies this
      ensures Valid() && scripts == map[] && store == old(store) && log == old(log) && lastEvalShaLimit == old(lastEvalShaLimit)
    {
      scripts := map[];
    }

    /**
     * EVALSHA sha 2 pattern limit: runs the cached script, which deletes matching keys one by
     * one and returns their number. An unknown digest is a NOSCRIPT error. The keys deleted are
     * returned as a ghost result.
     */
    method EvalSha(sha: string, pattern: string, limitArg: string) returns (r: Result<int, BackendError>, ghost deleted: set<string>)
      requires Valid()
      modifies this
      ensures Valid() && log == old(log) + [EVALSHA] && scripts == old(scripts)
      ensures lastEvalShaLimit == Some(limitArg)
      ensures r.Failure? <==> FaultFor(EVALSHA).Some? || sha !in old(scripts)
      ensures r.Failure? ==> deleted == {} && store == old(store)
      ensures r.Failure? && FaultFor(EVALSHA).Some? ==> Some(r.error) == FaultFor(EVALSHA)
      ensures r.Failure? && FaultFor(EVALSHA).None? ==> r.error == JedisDataException(NOSCRIPT_MESSAGE)
      ensures r.Success? ==>
        && r.value == BatchDeletions(scripts[sha], |MatchingKeys(old(store), pattern)|, limitArg)
        && deleted <= MatchingKeys(old(store), pattern)
        && |deleted| == r.value
        && store == old(store) - deleted
    {
      log := log + [EVALSHA];
      lastEvalShaLimit := Some(limitArg);
      var fault := FaultFor(EVALSHA);
      if fault.Some? {
        return Failure(fault.value), {};
      }
      if sha !in scripts {
        return Failure(JedisDataException(NOSCRIPT_MESSAGE)), {};
      }
      var limit := LimitValue(scripts[sha], limitArg);
      var keyspace, c;
      keyspace, c, deleted := RunBatchScript(store, pattern, limit);
      store := keyspace;
      return Success(c), deleted;
    }
  }

  /**
   * The script's loop over the keys matching the pattern: each is deleted and counted, until
   * none is left or the counter equals the limit. The keys deleted are a ghost result.
   */
  method RunBatchScript(before: map<string, Stored>, pattern: string, limit: LuaValue)
    returns (after: map<string, Stored>, c: nat, ghost deleted: set<string>)
    ensures c == Deletions(0, |MatchingKeys(before, pattern)|, limit)
    ensures deleted <= MatchingKeys(before, pattern) && |deleted| == c && after == before - deleted
  {
    ghost var matching := MatchingKeys(before, pattern);
    var vl := MatchingKeys(before, pattern);
    after := before;
    c := 0;
    deleted := {};
    while vl != {} && !LuaEquals(Number(c), limit)
      invariant ScriptLoopInvariant(before, matching, limit, after, c, deleted, vl)
      decreases vl
    {
      var k :| k in vl;
      DeleteOneKey(before, matching, limit, after, c, deleted, vl, k);
      after := after - {k};
      deleted := deleted + {k};
      vl := vl - {k};
      c := c + 1;
    }
    ScriptLoopExit(before, matching, limit, after, c, deleted, vl);
  }

  /**
   * What the script's loop keeps: the deleted keys are matching keys, the rest still to do;
   * the counter counts them; and the count the loop will end with is the batch's.
   */
  predicate ScriptLoopInvariant(before: map<string, Stored>, matching: set<string>, limit: LuaValue,
                                after: map<string, Stored>, c: nat, deleted: set<string>, vl: set<string>)
  {
    && deleted <= matching && vl == matching - deleted
    && c == |deleted| && |vl| == |matching| - c
    && after == before - deleted
    && Deletions(c, |matching|, limit) == Deletions(0, |matching|, limit)
  }

  /** One step of the script's loop: a matching key not yet deleted is deleted and counted. */
  lemma DeleteOneKey(before: map<string, Stored>, matching: set<string>, limit: LuaValue,
                     after: map<string, Stored>, c: nat, deleted: set<string>, vl: set<string>, k: string)
    requires ScriptLoopInvariant(before, matching, limit, after, c, deleted, vl)
    requires k in vl && !LuaEquals(Number(c), limit)
    ensures ScriptLoopInvariant(before, matching, limit, after - {k}, c + 1, deleted + {k}, vl - {k})
  {
    assert |deleted + {k}| == |deleted| + 1;
    assert |vl - {k}| == |vl| - 1;
    assert (before - deleted) - {k} == before - (deleted + {k});
  }

  /** When the loop stops, the counter is the batch's count. */
  lemma ScriptLoopExit(before: map<string, Stored>, matching: set<string>, limit: LuaValue,
                       after: map<string, Stored>, c: nat, deleted: set<string>, vl: set<string>)
    requires ScriptLoopInvariant(before, matching, limit, after, c, deleted, vl)
    requires vl == {} || LuaEquals(Number(c), limit)
    ensures c == Deletions(0, |matching|, limit)
  {
    if vl == {} {
      assert matching == deleted;
    }
  }
}
