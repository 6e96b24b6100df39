/**
 * DeleteAllEntriesInRegionCommand: evicts a region by running the delete script in batches until
 * a batch deletes nothing, loading the script on the first use and again whenever the server
 * has forgotten it.
 */
module DeleteCommand {
  import opened Wrappers
  import opened JavaStrings
  import opened KeyStrategy
  import opened Regions
  import opened CacheRepository
  import opened DeleteScript
  import opened Redis

  /** The digest the command starts with; it is never a digest of a loaded script. */
  const FIRST_USE_SHA: string := "firstUseWillThrowException"

  /**
   * The placeholder is not a digest, so no server holds a script under it: the first batch of a
   * new command always meets NOSCRIPT and loads the script.
   */
  lemma FirstUseShaIsNeverLoaded(server: RedisServer)
    requires server.Valid()
    ensures FIRST_USE_SHA !in server.scripts
  {
    assert |FIRST_USE_SHA| == 26;
  }

  /**
   * The eviction pattern for a region given the command's pattern cache: the pattern cached
   * under an equal region if there is one, else the region's own wildcard key.
   */
  function PatternFor(cache: map<RegionKey, string>, region: CacheRegion): string {
    if KeyOf(region) in cache then cache[KeyOf(region)] else region.keyStrategy.WildcardKeyFor(region.id)
  }

  /** When every cached pattern is the wildcard of one key strategy, a region of that strategy gets its own wildcard. */
  lemma PatternIsOwnWildcard(cache: map<RegionKey, string>, ks: NamespacedURIKeyStrategy, region: CacheRegion)
    requires forall k | k in cache :: cache[k] == ks.WildcardKeyFor(k.id)
    requires region.keyStrategy == ks
    ensures PatternFor(cache, region) == ks.WildcardKeyFor(region.id)
  {
  }

  /**
   * The cache is keyed by region equality, which ignores the key strategy: once a region's
   * pattern is cached, an equal region with another namespace is evicted with that pattern.
   */
  lemma PatternSharedByEqualRegions(cache: map<RegionKey, string>, a: CacheRegion, b: CacheRegion)
    requires Equals(a, b) && KeyOf(a) !in cache
    ensures PatternFor(cache[KeyOf(a) := PatternFor(cache, a)], b) == a.keyStrategy.WildcardKeyFor(a.id)
  {
  }

  /** The keys of a region's wildcard: those with the region's prefix. */
  lemma WildcardMatchesRegionKeys(store: map<string, Stored>, ks: NamespacedURIKeyStrategy, id: string, key: string)
    ensures key in MatchingKeys(store, ks.WildcardKeyFor(id)) <==> key in store && StartsWith(key, WildcardPrefix(ks, id))
  {
    var w := ks.WildcardKeyFor(id);
    assert w[..|w| - 1] == WildcardPrefix(ks, id);
  }

  /**
   * Evicting a region's wildcard takes every key the strategy made for the region and no key
   * it made for another region.
   */
  lemma WildcardSelectsRegion(store: map<string, Stored>, ks: NamespacedURIKeyStrategy, id: string, uri: string, other: string)
    requires ':' !in id && ':' !in other
    ensures ks.KeyFor(uri, id) in store ==> ks.KeyFor(uri, id) in MatchingKeys(store, ks.WildcardKeyFor(id))
    ensures other != id ==> ks.KeyFor(uri, other) !in MatchingKeys(store, ks.WildcardKeyFor(id))
  {
    WildcardMatchesRegionKeys(store, ks, id, ks.KeyFor(uri, id));
    KeyStartsWithWildcardPrefix(ks, uri, id);
    WildcardMatchesRegionKeys(store, ks, id, ks.KeyFor(uri, other));
    if other != id && StartsWith(ks.KeyFor(uri, other), WildcardPrefix(ks, id)) {
      KeyOutsideOtherRegionWildcard(ks, uri, other, id);
    }
  }

  /**
   * Whether a batch of the script deletes something whenever some key still matches: the
   * source's script always does, the corrected one unless the limit is 0.
   */
  predicate Progresses(script: Script, max: int) {
    script == DeleteBatchAsWritten || max != 0
  }

  /**
   * A successful run of a script: it deleted `count` of the keys `pattern` matched in
   * `before`, as many as the script's loop gets to, and nothing else.
   */
  predicate BatchEffect(script: Script, before: map<string, Stored>, pattern: string, limit: string, count: int,
                        deleted: set<string>, after: map<string, Stored>)
  {
    && count == BatchDeletions(script, |MatchingKeys(before, pattern)|, limit)
    && deleted <= MatchingKeys(before, pattern) && |deleted| == count
    && after == before - deleted
  }

  /** A subset of a finite set as large as the set is the set. */
  lemma SubsetOfSameSize(a: set<string>, d: set<string>)
    requires d <= a && |d| == |a|
    ensures d == a
  {
    SizeOfDifference(a, d);
    assert a - d == {};
  }

  /**
   * What one batch adds to an eviction that has removed `removed` from `before` so far: the
   * keys removed stay within the keys that matched at the start; a batch of the source's
   * script takes every key still matching; a batch that deletes nothing leaves no matching
   * key behind unless it is the corrected script under limit 0, which deletes nothing at all.
   */
  lemma BatchBookkeeping(script: Script, before: map<string, Stored>, pattern: string, removed: set<string>,
                         current: map<string, Stored>, deleted: set<string>, after: map<string, Stored>, max: int)
    requires removed <= MatchingKeys(before, pattern) && current == before - removed
    requires BatchEffect(script, current, pattern, ValueOf(max), |deleted|, deleted, after)
    ensures removed + deleted <= MatchingKeys(before, pattern) && after == before - (removed + deleted)
    ensures |removed + deleted| == |removed| + |deleted|
    ensures script == DeleteBatchAsWritten ==> deleted == MatchingKeys(current, pattern)
    ensures !Progresses(script, max) ==> deleted == {}
    ensures Progresses(script, max) && deleted == {} ==> removed == MatchingKeys(before, pattern)
    ensures deleted != {} ==> |MatchingKeys(after, pattern)| < |MatchingKeys(current, pattern)|
  {
    var n := |MatchingKeys(current, pattern)|;
    if script == DeleteBatchAsWritten {
      AsWrittenIgnoresLimit(n, ValueOf(max));
      SubsetOfSameSize(MatchingKeys(current, pattern), deleted);
    } else {
      CappedHonoursLimit(n, max);
    }
    MatchingAfterDelete(before, pattern, removed);
    MatchingAfterDelete(current, pattern, deleted);
    SizeOfDifference(MatchingKeys(current, pattern), deleted);
    assert after == before - (removed + deleted);
    if Progresses(script, max) && deleted == {} {
      SizeOfDifference(MatchingKeys(before, pattern), removed);
    }
  }

  /**
   * The bookkeeping of an eviction of the keys `matching` from `before`: `removed` of them are
   * gone from `store` and nothing else, `total` counts them, and `last` is what the last batch
   * deleted. Once a batch deletes nothing, every key is gone, unless the script cannot make
   * progress, when none is; the source's script has taken every key after its first batch.
   */
  predicate Evicting(script: Script, max: int, matching: set<string>, before: map<string, Stored>,
                     store: map<string, Stored>, removed: set<string>, total: int, last: nat)
  {
    && removed <= matching && total == |removed| && store == before - removed
    && (!Progresses(script, max) ==> removed == {} && last == 0)
    && (last == 0 && Progresses(script, max) ==> removed == matching)
    && (script == DeleteBatchAsWritten ==> removed == matching)
  }

  /** The first batch of an eviction starts its bookkeeping. */
  lemma FirstBatchStartsEviction(script: Script, before: map<string, Stored>, pattern: string,
                                 deleted: set<string>, after: map<string, Stored>, max: int, count: nat)
    requires BatchEffect(script, before, pattern, ValueOf(max), count, deleted, after)
    ensures Evicting(script, max, MatchingKeys(before, pattern), before, after, deleted, count, count)
  {
    BatchBookkeeping(script, before, pattern, {}, before, deleted, after, max);
  }

  /** When a batch has deleted nothing, the eviction is complete, or never started for lack of progress. */
  lemma EvictionEnds(script: Script, max: int, matching: set<string>, before: map<string, Stored>,
                     store: map<string, Stored>, removed: set<string>, total: int)
    requires Evicting(script, max, matching, before, store, removed, total, 0)
    ensures Progresses(script, max) ==> total == |matching| && store == before - matching
    ensures !Progresses(script, max) ==> total == 0 && store == before
  {
    assert before - {} == before;
  }

  /** A further batch carries the bookkeeping on, and deletes nothing after the source's first. */
  lemma NextBatchContinuesEviction(script: Script, max: int, before: map<string, Stored>, pattern: string,
                                   removed: set<string>, total: int, last: nat,
                                   current: map<string, Stored>, deleted: set<string>, after: map<string, Stored>, count: nat)
    requires Evicting(script, max, MatchingKeys(before, pattern), before, current, removed, total, last)
    requires BatchEffect(script, current, pattern, ValueOf(max), count, deleted, after)
    ensures Evicting(script, max, MatchingKeys(before, pattern), before, after, removed + deleted, total + count, count)
    ensures script == DeleteBatchAsWritten ==> count == 0
    ensures count > 0 ==> |MatchingKeys(after, pattern)| < |MatchingKeys(current, pattern)|
  {
    BatchBookkeeping(script, before, pattern, removed, current, deleted, after, max);
    if script == DeleteBatchAsWritten {
      MatchingAfterDelete(before, pattern, removed);
    }
  }

  class DeleteAllEntriesInRegionCommand {
    var cachedEvictionWildcardPatterns: map<RegionKey, string>
    var lastScriptSha: string
    /** The script the command loads: the source's SCRIPT, or the corrected one. */
    const script: Script

    /** The digest in hand is the placeholder or the digest of the script the command loads. */
    predicate Valid(server: RedisServer)
      reads this
    {
      lastScriptSha == FIRST_USE_SHA || lastScriptSha == server.sha1(script)
    }

    /** The command as the source builds it, loading SCRIPT as written. */
    constructor()
      ensures cachedEvictionWildcardPatterns == map[] && lastScriptSha == FIRST_USE_SHA
      ensures script == DeleteBatchAsWritten
    {
      cachedEvictionWildcardPatterns := map[];
      lastScriptSha := FIRST_USE_SHA;
      script := DeleteBatchAsWritten;
    }

    /** The same command loading the corrected script, which stops at the limit. */
    constructor Corrected()
      ensures cachedEvictionWildcardPatterns == map[] && lastScriptSha == FIRST_USE_SHA
      ensures script == DeleteBatchCapped
    {
      cachedEvictionWildcardPatterns := map[];
      lastScriptSha := FIRST_USE_SHA;
      script := DeleteBatchCapped;
    }

    /** The region's pattern, computed and cached on the first request for an equal region. */
    method GetRegionEvictionPattern(region: CacheRegion) returns (pattern: string)
      modifies this
      ensures pattern == PatternFor(old(cachedEvictionWildcardPatterns), region)
      ensures cachedEvictionWildcardPatterns == old(cachedEvictionWildcardPatterns)[KeyOf(region) := pattern]
      ensures lastScriptSha == old(lastScriptSha)
    {
      if KeyOf(region) in cachedEvictionWildcardPatterns {
        pattern := cachedEvictionWildcardPatterns[KeyOf(region)];
      } else {
        pattern := region.keyStrategy.WildcardKeyFor(region.id);
      }
      cachedEvictionWildcardPatterns := cachedEvictionWildcardPatterns[KeyOf(region) := pattern];
    }

    /** A loaded digest in hand names the command's script: the cache is content-addressed. */
    lemma LoadedScriptIsOwn(server: RedisServer)
      requires server.Valid() && Valid(server) && lastScriptSha in server.scripts
      ensures server.scripts[lastScriptSha] == script
    {
      FirstUseShaIsNeverLoaded(server);
    }

    /**
     * EVALSHA of the pattern with the digest in hand; on a NOSCRIPT reply the script is loaded,
     * its digest kept, and EVALSHA issued once more. Any other error propagates.
     */
    method EvalShaReloading(server: RedisServer, pattern: string, limit: string)
      returns (r: Result<int, BackendError>, ghost deleted: set<string>)
      requires server.Valid() && Valid(server)
      modifies `lastScriptSha, server
      ensures server.Valid() && Valid(server)
      ensures r.Success? <==>
                && server.FaultFor(EVALSHA).None?
                && (old(lastScriptSha) in old(server.scripts) || server.FaultFor(SCRIPT_LOAD).None?)
      ensures r.Success? ==> lastScriptSha in server.scripts
      ensures r.Failure? ==> Some(r.error) == server.FaultFor(EVALSHA) || Some(r.error) == server.FaultFor(SCRIPT_LOAD)
      ensures r.Failure? ==> server.store == old(server.store) && deleted == {}
      ensures r.Success? ==> BatchEffect(script, old(server.store), pattern, limit, r.value, deleted, server.store)
      ensures old(server.log) + [EVALSHA] <= server.log && server.lastEvalShaLimit == Some(limit)
      ensures r.Success? ==>
                server.log == old(server.log) + if old(lastScriptSha) in old(server.scripts) then [EVALSHA]
                                                 else [EVALSHA, SCRIPT_LOAD, EVALSHA]
    {
      NoscriptReplyHasCode();
      if lastScriptSha in server.scripts {
        LoadedScriptIsOwn(server);
      }
      var affected;
      affected, deleted := server.EvalSha(lastScriptSha, pattern, limit);
      if affected.Failure? {
        if affected.error.JedisDataException? && StartsWith(affected.error.message, "NOSCRIPT") {
          var loaded := server.ScriptLoad(script);
          if loaded.Failure? {
            return Failure(loaded.error), {};
          }
          lastScriptSha := loaded.value;
          LoadedScriptIsOwn(server);
          affected, deleted := server.EvalSha(lastScriptSha, pattern, limit);
        } else {
          return affected, {};
        }
      }
      return affected, deleted;
    }

    /** One batch: the region's eviction pattern, then EVALSHA of it, reloading on NOSCRIPT. */
    method ExecuteOneBatch(server: RedisServer, region: CacheRegion, limit: string)
      returns (r: Result<int, BackendError>, ghost deleted: set<string>)
      requires server.Valid() && Valid(server)
      modifies this, server
      ensures server.Valid() && Valid(server)
      ensures cachedEvictionWildcardPatterns
           == old(cachedEvictionWildcardPatterns)[KeyOf(region) := PatternFor(old(cachedEvictionWildcardPatterns), region)]
      ensures r.Success? <==>
                && server.FaultFor(EVALSHA).None?
                && (old(lastScriptSha) in old(server.scripts) || server.FaultFor(SCRIPT_LOAD).None?)
      ensures r.Success? ==> lastScriptSha in server.scripts
      ensures r.Failure? ==> Some(r.error) == server.FaultFor(EVALSHA) || Some(r.error) == server.FaultFor(SCRIPT_LOAD)
      ensures r.Failure? ==> server.store == old(server.store) && deleted == {}
      ensures r.Success? ==> BatchEffect(script, old(server.store), PatternFor(old(cachedEvictionWildcardPatterns), region),
                                         limit, r.value, deleted, server.store)
      ensures old(server.log) + [EVALSHA] <= server.log && server.lastEvalShaLimit == Some(limit)
      ensures r.Success? ==>
                server.log == old(server.log) + if old(lastScriptSha) in old(server.scripts) then [EVALSHA]
                                                 else [EVALSHA, SCRIPT_LOAD, EVALSHA]
    {
      var pattern := GetRegionEvictionPattern(region);
      r, deleted := EvalShaReloading(server, pattern, limit);
    }

    /**
     * A batch after a successful one: the script is loaded and the region's pattern cached, so
     * the batch cannot meet NOSCRIPT, and it carries on the eviction of `before`.
     */
    method NextBatch(server: RedisServer, region: CacheRegion, limit: string, ghost max: int, ghost pattern: string,
                     ghost before: map<string, Stored>, ghost removed: set<string>, ghost total: int, ghost last: nat)
      returns (count: nat, ghost deleted: set<string>)
      requires server.Valid() && Valid(server) && limit == ValueOf(max)
      requires KeyOf(region) in cachedEvictionWildcardPatterns && cachedEvictionWildcardPatterns[KeyOf(region)] == pattern
      requires server.FaultFor(EVALSHA).None? && lastScriptSha in server.scripts
      requires Evicting(script, max, MatchingKeys(before, pattern), before, server.store, removed, total, last)
      modifies this, server
      ensures server.Valid() && Valid(server) && lastScriptSha in server.scripts
      ensures cachedEvictionWildcardPatterns == old(cachedEvictionWildcardPatterns)
      ensures Evicting(script, max, MatchingKeys(before, pattern), before, server.store, removed + deleted, total + count, count)
      ensures script == DeleteBatchAsWritten ==> count == 0
      ensures count > 0 ==> |MatchingKeys(server.store, pattern)| < |MatchingKeys(old(server.store), pattern)|
      ensures server.log == old(server.log) + [EVALSHA] && server.lastEvalShaLimit == Some(limit)
    {
      ghost var current := server.store;
      var batch;
      batch, deleted := ExecuteOneBatch(server, region, limit);
      if batch.Failure? {
        assert false;
      }
      count := batch.value;
      NextBatchContinuesEviction(script, max, before, pattern, removed, total, last, current, deleted, server.store, count);
    }

    /**
     * Deletes every key of the region, batch after batch, until a batch deletes nothing, and
     * returns the total. The source's script takes every matching key in its first batch; the
     * corrected one takes at most the limit per batch, and nothing under limit 0.
     */
    method Execute(server: RedisServer, region: CacheRegion, maxEntriesDeletedInOneBatch: int)
      returns (r: Result<int, BackendError>)
      requires server.Valid() && Valid(server)
      modifies this, server
      ensures server.Valid() && Valid(server)
      ensures cachedEvictionWildcardPatterns
           == old(cachedEvictionWildcardPatterns)[KeyOf(region) := PatternFor(old(cachedEvictionWildcardPatterns), region)]
      ensures r.Success? <==>
                && server.FaultFor(EVALSHA).None?
                && (old(lastScriptSha) in old(server.scripts) || server.FaultFor(SCRIPT_LOAD).None?)
      ensures r.Failure? ==> Some(r.error) == server.FaultFor(EVALSHA) || Some(r.error) == server.FaultFor(SCRIPT_LOAD)
      ensures var matching := MatchingKeys(old(server.store), PatternFor(old(cachedEvictionWildcardPatterns), region));
              && (r.Success? && Progresses(script, maxEntriesDeletedInOneBatch) ==>
                    r.value == |matching| && server.store == old(server.store) - matching)
              && (r.Success? && !Progresses(script, maxEntriesDeletedInOneBatch) ==>
                    r.value == 0 && server.store == old(server.store))
              && (r.Failure? ==> server.store == old(server.store))
      ensures old(server.log) + [EVALSHA] <= server.log
      ensures server.lastEvalShaLimit == Some(ValueOf(maxEntriesDeletedInOneBatch))
      ensures r.Success? && script == DeleteBatchAsWritten ==>
                |server.log| <= |old(server.log)| + if old(lastScriptSha) in old(server.scripts) then 2 else 4
    {
      var limit := ValueOf(maxEntriesDeletedInOneBatch);
      ghost var pattern := PatternFor(cachedEvictionWildcardPatterns, region);
      ghost var before := server.store;
      var first, deleted := ExecuteOneBatch(server, region, limit);
      if first.Failure? {
        return Failure(first.error);
      }
      var lastBatchRemoved: nat := first.value;
      var allRemoved := lastBatchRemoved;
      ghost var removed := deleted;
      FirstBatchStartsEviction(script, before, pattern, deleted, server.store, maxEntriesDeletedInOneBatch, lastBatchRemoved);
      ghost var logAfterFirst := |server.log|;
      while lastBatchRemoved > 0
        invariant server.Valid() && Valid(server)
        invariant cachedEvictionWildcardPatterns == old(cachedEvictionWildcardPatterns)[KeyOf(region) := pattern]
        invariant server.FaultFor(EVALSHA).None? && lastScriptSha in server.scripts
        invariant Evicting(script, maxEntriesDeletedInOneBatch, MatchingKeys(before, pattern), before, server.store,
                           removed, allRemoved, lastBatchRemoved)
        invariant old(server.log) + [EVALSHA] <= server.log && server.lastEvalShaLimit == Some(limit)
        invariant script == DeleteBatchAsWritten ==> |server.log| <= logAfterFirst + if lastBatchRemoved > 0 then 0 else 1
        decreases |MatchingKeys(server.store, pattern)|, lastBatchRemoved
      {
        ghost var last := lastBatchRemoved;
        lastBatchRemoved, deleted := NextBatch(server, region, limit, maxEntriesDeletedInOneBatch, pattern, before,
                                               removed, allRemoved, last);
        removed := removed + deleted;
        allRemoved := allRemoved + lastBatchRemoved;
      }
      EvictionEnds(script, maxEntriesDeletedInOneBatch, MatchingKeys(before, pattern), before, server.store, removed, allRemoved);
      return Success(allRemoved);
    }
  }

  /**
   * A server that has forgotten its scripts (SCRIPT FLUSH, a restart) is detected by the
   * NOSCRIPT reply: the next batch loads the script again and succeeds.
   */
  method BatchAfterScriptFlush(server: RedisServer, command: DeleteAllEntriesInRegionCommand, region: CacheRegion, limit: string)
    returns (r: Result<int, BackendError>)
    requires server.Valid() && command.Valid(server)
    requires server.FaultFor(EVALSHA).None? && server.FaultFor(SCRIPT_LOAD).None?
    modifies server, command
    ensures r.Success? && command.lastScriptSha == server.sha1(command.script) && command.lastScriptSha in server.scripts
    ensures server.log == old(server.log) + [EVALSHA, SCRIPT_LOAD, EVALSHA]
  {
    server.FlushScripts();
    ghost var deleted;
    r, deleted := command.ExecuteOneBatch(server, region, limit);
    FirstUseShaIsNeverLoaded(server);
  }
}
