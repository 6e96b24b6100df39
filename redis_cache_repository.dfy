/**
 * RedisCacheRepository: the CacheRepository backed by Redis. Every operation takes a connection
 * from the pool, issues its commands, and wraps whatever is thrown in CacheRepositoryException.
 */
module RedisRepository {
  import opened Wrappers
  import opened JavaStrings
  import opened Regions
  import opened CacheRepository
  import opened Redis
  import opened DeleteScript
  import opened DeleteCommand
  import KeyStrategy

  const NULL_KEY_MESSAGE: string := "Key to upsert should not be null"
  const EMPTY_KEY_MESSAGE: string := "Key to upsert should not be empty"
  /** What the pool's client library throws once the pool is destroyed. */
  const POOL_CLOSED: BackendError := JedisConnectionException("Could not get a resource from the pool")

  /** The entry stored under a key. */
  function StoredEntry(store: map<string, Stored>, key: string): (e: Option<Entry>)
    ensures e.Some? <==> key in store
    ensures e.Some? ==> e.value == store[key].entry
  {
    if key in store then Some(store[key].entry) else None
  }

  /**
   * The keyspace after a successful upsert into a region: a region with ttl 0 uses a plain
   * HMSET, any other region HMSET followed by EXPIRE with the region's whole seconds.
   */
  function StoreAfterUpsert(store: map<string, Stored>, key: string, e: Entry, region: CacheRegion): (s: map<string, Stored>)
    ensures key in s <==> region.ttl == 0 || region.ttlInSeconds > 0
    ensures key in s ==> s[key].entry == e
    ensures region.ttl == 0 ==> s[key].expiry == if key in store then store[key].expiry else None
    ensures region.ttl != 0 && region.ttlInSeconds > 0 ==> s[key].expiry == Some(region.ttlInSeconds)
    ensures forall k :: k != key ==> (k in s <==> k in store) && (k in s ==> s[k] == store[k])
  {
    if region.ttl == 0 then store[key := Stored(e, if key in store then store[key].expiry else None)]
    else if region.ttlInSeconds > 0 then store[key := Stored(e, Some(region.ttlInSeconds))]
    else store - {key}
  }

  function Wrap(e: BackendError): CacheRepositoryException {
    CacheRepositoryException(Backend(e))
  }

  class RedisCacheRepository {
    const server: RedisServer
    const deleteCommand: DeleteAllEntriesInRegionCommand
    const maxEntriesDeletedInOneBatch: int
    var disposed: bool

    predicate Valid()
      reads this, server, deleteCommand
    {
      server.Valid() && deleteCommand.Valid(server)
    }

    constructor(server: RedisServer, maxEntriesDeletedInOneBatch: int)
      requires server.Valid()
      ensures Valid() && fresh(deleteCommand) && !disposed
      ensures this.server == server && this.maxEntriesDeletedInOneBatch == maxEntriesDeletedInOneBatch
      ensures deleteCommand.cachedEvictionWildcardPatterns == map[] && deleteCommand.lastScriptSha == FIRST_USE_SHA
      ensures deleteCommand.script == DeleteBatchAsWritten
    {
      this.server := server;
      this.maxEntriesDeletedInOneBatch := maxEntriesDeletedInOneBatch;
      deleteCommand := new DeleteAllEntriesInRegionCommand();
      disposed := false;
    }

    /** The error taking a connection from the pool raises, if any. */
    function ConnectionFault(): (f: Option<BackendError>)
      reads this
      ensures f.None? <==> !disposed && CONNECT !in server.faults
    {
      if disposed then Some(POOL_CLOSED)
      else if CONNECT in server.faults then Some(server.faults[CONNECT])
      else None
    }

    /** getEntryAssumingCached: the whole hash, or NO_RESULT_FOUND for a key that is gone. */
    function EntryAssumingCached(key: string): (r: Result<CacheQueryResult, CacheRepositoryException>)
      reads server
      ensures r.Failure? <==> server.FaultFor(HGETALL).Some?
      ensures r.Failure? ==> Some(r.error.cause) == Some(Backend(server.FaultFor(HGETALL).value))
      ensures r.Success? ==> r.value == if key in server.store then Found(server.store[key].entry) else NO_RESULT_FOUND
    {
      match server.HGetAllReply(key)
      case Failure(e) => Failure(Wrap(e))
      case Success(None) => Success(NO_RESULT_FOUND)
      case Success(Some(e)) => Success(Found(e))
    }

    /**
     * fetchIfChanged: rejects a null or blank key, then answers from the etag alone when the
     * client's etag is current and with the whole entry otherwise.
     */
    function FetchIfChanged(key: Option<string>, etag: Option<string>): (r: Result<CacheQueryResult, CacheRepositoryException>)
      reads this, server
      ensures key.None? ==> r == Failure(CacheRepositoryException(IllegalArgument(NULL_KEY_MESSAGE)))
      ensures key.Some? && Trim(key.value) == [] ==> r == Failure(CacheRepositoryException(IllegalArgument(EMPTY_KEY_MESSAGE)))
      ensures key.Some? && Trim(key.value) != [] ==>
                && (r.Failure? ==> && r.error.cause.Backend?
                                   && (|| Some(r.error.cause.error) == ConnectionFault()
                                       || Some(r.error.cause.error) == server.FaultFor(HGET)
                                       || Some(r.error.cause.error) == server.FaultFor(HGETALL)))
                && (ConnectionFault().None? && server.FaultFor(HGET).None? && server.FaultFor(HGETALL).None? ==> r.Success?)
                && (r.Success? ==> && FetchContract(StoredEntry(server.store, key.value), etag, r.value)
                                   && (r.value.payload.Some? ==> r.value == Found(server.store[key.value].entry))
                                   && (r.value.payload.None? ==> r.value in {NO_RESULT_FOUND, RESULT_FOUND_BUT_NOT_CHANGED}))
    {
      if key.None? then Failure(CacheRepositoryException(IllegalArgument(NULL_KEY_MESSAGE)))
      else if Trim(key.value) == [] then Failure(CacheRepositoryException(IllegalArgument(EMPTY_KEY_MESSAGE)))
      else if ConnectionFault().Some? then Failure(Wrap(ConnectionFault().value))
      else if etag.None? then EntryAssumingCached(key.value)
      else
        match server.HGetEtagReply(key.value)
        case Failure(e) => Failure(Wrap(e))
        case Success(None) => Success(NO_RESULT_FOUND)
        case Success(Some(cachedEtag)) =>
          if cachedEtag == etag.value then Success(RESULT_FOUND_BUT_NOT_CHANGED)
          else EntryAssumingCached(key.value)
    }

    /** upsert: stores the entry whatever is stored under the key, with the region's expiry. */
    method Upsert(key: string, content: string, etag: string, contentType: string, encoding: string, region: CacheRegion)
      returns (r: Result<(), CacheRepositoryException>)
      requires Valid()
      modifies server
      ensures Valid() && server.scripts == old(server.scripts)
      ensures r.Success? <==> ConnectionFault().None? && server.FaultFor(if region.ttl == 0 then HMSET else MULTI).None?
      ensures r.Success? ==> server.store == StoreAfterUpsert(old(server.store), key, Entry(content, etag, contentType, encoding), region)
      ensures r.Failure? ==> server.store == old(server.store) && r.error.cause.Backend?
    {
      var fault := ConnectionFault();
      if fault.Some? {
        return Failure(Wrap(fault.value));
      }
      var entry := Entry(content, etag, contentType, encoding);
      var reply;
      if region.ttl == 0 {
        reply := server.HMSet(key, entry);
      } else {
        reply := server.MultiHMSetExpire(key, entry, region.ttlInSeconds);
      }
      if reply.Failure? {
        return Failure(Wrap(reply.error));
      }
      return Success(());
    }

    /** remove: deletes the key. */
    method Remove(key: string) returns (r: Result<(), CacheRepositoryException>)
      requires Valid()
      modifies server
      ensures Valid() && server.scripts == old(server.scripts)
      ensures r.Success? <==> ConnectionFault().None? && server.FaultFor(DEL).None?
      ensures r.Success? ==> server.store == old(server.store) - {key}
      ensures r.Failure? ==> server.store == old(server.store) && r.error.cause.Backend?
    {
      var fault := ConnectionFault();
      if fault.Some? {
        return Failure(Wrap(fault.value));
      }
      var reply := server.Del(key);
      if reply.Failure? {
        return Failure(Wrap(reply.error));
      }
      return Success(());
    }

    /**
     * What evicting a region with batch size `max` brings about. A connection failure fails
     * before any command. Otherwise the eviction succeeds exactly when its commands go
     * through, and the batch size is sent to the server as a string. A success deletes exactly
     * the keys the region's pattern matched and returns their number, or deletes nothing when
     * the script cannot make progress (the corrected script under batch size 0). A failure
     * changes no key.
     */
    twostate predicate Evicted(region: CacheRegion, max: int, new r: Result<int, CacheRepositoryException>)
      reads this, server, deleteCommand
    {
      && (ConnectionFault().Some? ==> && r == Failure(Wrap(ConnectionFault().value))
                                      && server.store == old(server.store) && server.log == old(server.log))
      && (ConnectionFault().None? ==>
            && (r.Success? <==> && server.FaultFor(EVALSHA).None?
                                && (old(deleteCommand.lastScriptSha) in old(server.scripts) || server.FaultFor(SCRIPT_LOAD).None?))
            && old(server.log) + [EVALSHA] <= server.log
            && server.lastEvalShaLimit == Some(ValueOf(max)))
      && (r.Failure? ==> server.store == old(server.store) && r.error.cause.Backend?)
      && var matching := MatchingKeys(old(server.store), PatternFor(old(deleteCommand.cachedEvictionWildcardPatterns), region));
         && (r.Success? && Progresses(deleteCommand.script, max) ==>
               r.value == |matching| && server.store == old(server.store) - matching)
         && (r.Success? && !Progresses(deleteCommand.script, max) ==>
               r.value == 0 && server.store == old(server.store))
    }

    /**
     * evictRegion(region, maxEntriesDeletedInOneBatch): deletes every key matching the region's
     * eviction pattern, in batches, and returns how many were deleted.
     */
    method EvictRegion(region: CacheRegion, maxEntriesDeletedInOneBatch: int) returns (r: Result<int, CacheRepositoryException>)
      requires Valid()
      modifies server, deleteCommand
      ensures Valid() && Evicted(region, maxEntriesDeletedInOneBatch, r)
    {
      var fault := ConnectionFault();
      if fault.Some? {
        return Failure(Wrap(fault.value));
      }
      var removed := deleteCommand.Execute(server, region, maxEntriesDeletedInOneBatch);
      if removed.Failure? {
        return Failure(Wrap(removed.error));
      }
      return Success(removed.value);
    }

    /** evictRegion(region): the same with the repository's own batch size. */
    method EvictRegionInDefaultBatches(region: CacheRegion) returns (r: Result<int, CacheRepositoryException>)
      requires Valid()
      modifies server, deleteCommand
      ensures Valid() && Evicted(region, maxEntriesDeletedInOneBatch, r)
    {
      r := EvictRegion(region, maxEntriesDeletedInOneBatch);
    }

    /** dispose: destroys the pool; no later operation gets a connection. */
    method Dispose()
      modifies this
      ensures disposed && ConnectionFault() == Some(POOL_CLOSED)
    {
      disposed := true;
    }
  }

  /** A stored entry is found whole without an etag and reported unchanged with its own etag. */
  lemma UpsertThenFetch(repo: RedisCacheRepository, before: map<string, Stored>, key: string, e: Entry, region: CacheRegion)
    requires repo.server.store == StoreAfterUpsert(before, key, e, region)
    requires Trim(key) != [] && (region.ttl == 0 || region.ttlInSeconds > 0)
    requires repo.ConnectionFault().None? && repo.server.FaultFor(HGET).None? && repo.server.FaultFor(HGETALL).None?
    ensures repo.FetchIfChanged(Some(key), None) == Success(Found(e))
    ensures repo.FetchIfChanged(Some(key), Some(e.etag)) == Success(RESULT_FOUND_BUT_NOT_CHANGED)
    ensures forall other :: other != e.etag ==> repo.FetchIfChanged(Some(key), Some(other)) == Success(Found(e))
  {
  }

  /**
   * A region whose ttl is positive but under one second (in whole seconds 0) caches nothing:
   * EXPIRE with 0 seconds deletes the entry HMSET has just written.
   */
  lemma SubSecondTtlCachesNothing(repo: RedisCacheRepository, before: map<string, Stored>, key: string, e: Entry,
                                  region: CacheRegion, etag: Option<string>)
    requires repo.server.store == StoreAfterUpsert(before, key, e, region)
    requires Trim(key) != [] && region.ttl != 0 && region.ttlInSeconds == 0
    requires repo.ConnectionFault().None? && repo.server.FaultFor(HGET).None? && repo.server.FaultFor(HGETALL).None?
    ensures repo.FetchIfChanged(Some(key), etag) == Success(NO_RESULT_FOUND)
  {
  }

  /** The constructors give a region of 4 milliseconds, as configured for "events", 0 whole seconds. */
  lemma FourMillisecondRegionHasNoSeconds(ks: KeyStrategy.NamespacedURIKeyStrategy)
    ensures var r := NewCachedRegion("events", 4, Some(Milliseconds), ks);
            r.Success? && r.value.ttl == 4 && r.value.ttlInSeconds == 0
  {
  }

  /** A removed key is reported missing. */
  lemma RemoveThenFetch(repo: RedisCacheRepository, before: map<string, Stored>, key: string, etag: Option<string>)
    requires repo.server.store == before - {key} && Trim(key) != []
    requires repo.ConnectionFault().None? && repo.server.FaultFor(HGET).None? && repo.server.FaultFor(HGETALL).None?
    ensures repo.FetchIfChanged(Some(key), etag) == Success(NO_RESULT_FOUND)
  {
  }

  /**
   * Evicting a region with its own wildcard leaves none of the region's keys and every key of
   * the other regions as it was.
   */
  lemma EvictionSeparatesRegions(before: map<string, Stored>, ks: KeyStrategy.NamespacedURIKeyStrategy,
                                 id: string, other: string, uri: string)
    requires ':' !in id && ':' !in other
    ensures var after := before - MatchingKeys(before, ks.WildcardKeyFor(id));
            && ks.KeyFor(uri, id) !in after
            && (other != id && ks.KeyFor(uri, other) in before ==>
                  ks.KeyFor(uri, other) in after && after[ks.KeyFor(uri, other)] == before[ks.KeyFor(uri, other)])
  {
    WildcardSelectsRegion(before, ks, id, uri, other);
  }
}
