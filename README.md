# dynks caching engine, modelled in Dafny

dynks is a servlet filter that caches whole HTTP responses in Redis, one cache region per
URI pattern, and revalidates them with entity tags: a client sending the current `ETag`
gets `304 Not Modified`, section 4.1 of RFC 7232. The etag comparison is exact string
equality, not the weak or strong comparison of section 2.3.2. This project models the
engine of the `filter` module and proves what each part of it promises:

- **Regions and keys** (`cache_region.dfy`, `key_strategy.dfy`). A region is an immutable
  value, with seconds derived from its ttl. Keys look like `ns:id:uri` and region wildcards
  like `ns:id:*`.
- **Region resolution and configuration** (`region_repository.dfy`, `region_builder.dfy`,
  `region_config.dfy`). A URI resolves to the region of the first matching pattern, or to
  `_passthrough`. An id resolves through the id index. The builder checks the configured ids
  in list order.
- **The conditional-fetch protocol** (`cache_repository.dfy`, `redis_cache_repository.dfy`).
  `fetchIfChanged`, `upsert`, `remove` and both `evictRegion`s run over a modelled Redis
  server (`redis_server.dfy`). The server is a class holding:
  - a keyspace of hashes, each with an optional time to live;
  - a script cache addressed by SHA-1 digest;
  - a log of the mutating commands;
  - a fault table: a server or connection that answers some kind of command with an
    exception.
- **Batched eviction** (`delete_command.dfy`, `delete_script.dfy`). A do-while loop runs
  Lua delete batches until one batch deletes nothing. It caches each region's pattern, and on
  `NOSCRIPT` it reloads the script and retries once. The command is built with the script
  it loads. The source's script deletes every matching key in its first batch (see
  Findings). The corrected script, from the `Corrected` constructor, deletes at most the
  limit per batch.
- **Per-request orchestration** (`caching_filter.dfy`). `doFilter` covers five branches:
  non-GET, passthrough, regenerate and store, 304, and serve stored. It also covers the
  hardened-mode fallback on a repository error.
- **Admin facade** (`frontend.dfy`). A singleton that is initialized once and then evicts
  regions by id.
- **Diagnostics** (`configuration.dfy`). The `RegionsJson` attribute of the management bean.

Support modules:

- `wrappers.dfy`: Option and Result, standing for Java's null and thrown exceptions.
- `java_strings.dfy`: `String.trim`, `String.valueOf(int)` and Lua's `tonumber`.
- `java_numbers.dfy`: truncating division, 32-bit wrap-around and `String.hashCode`.

Java's `null` is `None`. A thrown exception is a `Failure` carrying the exception's class
and message. Everything the core cannot see is a parameter:

- the downstream handler is `FilterChain.handler`;
- `ETag.of` is `etagOf`;
- `URIMatcher.matches` is `matches`;
- `Duration.toString` is `render`;
- the SHA-1 of a script is `RedisServer.sha1`.

## Model

| member | source | states |
|---|---|---|
| Regions.TtlInSeconds | filter/src/main/java/dynks/cache/CacheRegion.java:34 | a positive ttl gives `unit.toSeconds(ttl)`, a null unit then being a NullPointerException; a ttl of 0 or less gives 0 without consulting the unit; the seconds are never negative and fit an int |
| Regions.NewRegion | filter/src/main/java/dynks/cache/CacheRegion.java:30-39 | fails exactly for a positive ttl with a null unit; otherwise every getter returns its constructor argument and the seconds follow the rule above |
| Regions.NewCachedRegion | filter/src/main/java/dynks/cache/CacheRegion.java:41-50 | has the same fields as the five-argument constructor with cacheability CACHED, so it always yields a CACHED region |
| Regions.EqualsIffSameButKeyStrategy | filter/src/main/java/dynks/cache/CacheRegion.java:76-88 | two constructed regions are `equals` exactly when id, ttl, unit and cacheability agree; the key-strategy term never tells them apart |
| Regions.EqualsIgnoresNamespace | filter/src/main/java/dynks/cache/CacheRegion.java:81-86 | regions differing only in their strategy's namespace are equal |
| KeyStrategy.New | filter/src/main/java/dynks/cache/NamespacedURIKeyStrategy.java:17-24 | fails exactly for a null namespace, with "Namespace should not be null"; otherwise keeps the namespace |
| KeyStrategy.KeyStrategyWithEmptyNamespace | filter/src/main/java/dynks/cache/NamespacedURIKeyStrategy.java:26-28 | is the constructor applied to the empty namespace, and its namespace is `""` |
| KeyStrategy.WildcardPrefix | filter/src/main/java/dynks/cache/NamespacedURIKeyStrategy.java:30-38 | the region wildcard is `ns:id:` followed by `*` |
| KeyStrategy.KeyStartsWithWildcardPrefix | filter/src/main/java/dynks/cache/NamespacedURIKeyStrategy.java:40-52 | every key of a region is the region's wildcard without its `*`, followed by the URI |
| KeyStrategy.KeyForIsInjective | filter/src/main/java/dynks/cache/NamespacedURIKeyStrategy.java:40-52 | for one namespace and colon-free ids, equal keys come from equal (id, uri) pairs |
| KeyStrategy.KeyOutsideOtherRegionWildcard | filter/src/main/java/dynks/cache/NamespacedURIKeyStrategy.java:30-52 | a key of a colon-free region begins with another colon-free region's wildcard prefix only if the ids are equal |
| KeyStrategy.AllStrategiesEqual | filter/src/main/java/dynks/cache/NamespacedURIKeyStrategy.java:54-64 | any two strategies are equal both ways and share a hash code, whatever their namespaces |
| RegionRepository.PassthroughIsConstructed | filter/src/main/java/dynks/cache/CacheByURIRegionRepository.java:28-32 | PASSTHROUGH is what the five-argument constructor builds from `_passthrough`, ttl 0, a null unit, PASSTHROUGH and the empty-namespace strategy; its seconds are 0 |
| RegionRepository.IndexById | filter/src/main/java/dynks/cache/CacheByURIRegionRepository.java:41 | a built index has exactly the regions' ids as keys and maps each region's id to that region; a failure names an id of the regions |
| RegionRepository.IndexByIdSucceedsIff | filter/src/main/java/dynks/cache/CacheByURIRegionRepository.java:41 | the duplicate-rejecting collector succeeds exactly when no two regions share an id |
| RegionRepository.New | filter/src/main/java/dynks/cache/CacheByURIRegionRepository.java:34-43 | null is rejected with "List of cache regions should not be null"; otherwise construction succeeds exactly when the ids are distinct, keeping the regions and a consistent id index |
| RegionRepository.CacheByURIRegionRepository.GetById | filter/src/main/java/dynks/cache/CacheByURIRegionRepository.java:45-55 | finds a region exactly when some configured region has the id; what it finds has that id and is one of the configured regions |
| RegionRepository.GetByIdFindsEveryRegion | filter/src/main/java/dynks/cache/CacheByURIRegionRepository.java:41-55 | every configured region is found under its own id |
| RegionRepository.FirstMatch | filter/src/main/java/dynks/cache/CacheByURIRegionRepository.java:62-66 | gives the index of the first pattern that accepts the URI, with no earlier one accepting it, or none when no pattern accepts it |
| RegionRepository.CacheByURIRegionRepository.Getfor | filter/src/main/java/dynks/cache/CacheByURIRegionRepository.java:57-70 | returns the region of the first accepting pattern whenever one accepts the URI, and PASSTHROUGH when none does |
| RegionRepository.EmptyRepositoryPassesEverythingThrough | filter/src/main/java/dynks/cache/CacheByURIRegionRepository.java:62-69 | an empty region list is accepted; then every URI resolves to PASSTHROUGH and no id is found |
| RegionRepository.ResolvedRegionAcceptsUri | filter/src/main/java/dynks/cache/CacheByURIRegionRepository.java:62-69 | when no configured region is PASSTHROUGH, a URI resolves to PASSTHROUGH exactly when no pattern accepts it |
| RegionBuilder.CheckRegion | filter/src/main/java/dynks/cache/ResponseCacheByURIBuilder.java:29-54 | the first failed check in the builder's order (missing id, duplicate, colon, blank, leading underscore, missing ttl, missing pattern) with its message; none fails exactly when all fields are present, the id is valid and it is new |
| RegionBuilder.BuiltEntry | filter/src/main/java/dynks/cache/ResponseCacheByURIBuilder.java:53-55 | an accepted region becomes its pattern's matcher and a CACHED region with the ttl in milliseconds, unit MILLISECONDS and the shared strategy |
| RegionBuilder.AcceptRegion | filter/src/main/java/dynks/cache/ResponseCacheByURIBuilder.java:29-55 | one pass of the loop body fails exactly when a check fails, with that check's error, and otherwise yields the built entry |
| RegionBuilder.Build | filter/src/main/java/dynks/cache/ResponseCacheByURIBuilder.java:19-62 | fails exactly when some region fails its check against the ids before it, with the error of the first such region, every earlier one having passed; on success it keeps one entry per region in order, all ids valid and distinct, and the repository index is consistent |
| RegionBuilder.FirstFailure | filter/src/main/java/dynks/cache/ResponseCacheByURIBuilder.java:27-51 | a check failing after every earlier region passed is the first failure of the list |
| RegionBuilder.AcceptedIdsAreDistinct | filter/src/main/java/dynks/cache/ResponseCacheByURIBuilder.java:35-43 | the ids of a configuration whose every region passed are pairwise distinct, so the repository constructor cannot meet a duplicate |
| RedisRepository.StoreAfterUpsert | filter/src/main/java/dynks/redis/RedisCacheRepository.java:131-138 | after an upsert the key holds the new entry whatever was stored; with ttl 0 the key keeps its expiry; otherwise it expires after the region's seconds, and 0 seconds deletes it; every other key is untouched |
| RedisRepository.RedisCacheRepository.constructor | filter/src/main/java/dynks/redis/RedisCacheRepository.java:47-54 | keeps the server and the batch size; the delete command starts with an empty pattern cache and the placeholder digest, and loads the source's script |
| RedisRepository.RedisCacheRepository.ConnectionFault | filter/src/main/java/dynks/redis/RedisCacheRepository.java:96 | taking a connection fails once the pool is disposed or when connections fail |
| RedisRepository.RedisCacheRepository.EntryAssumingCached | filter/src/main/java/dynks/redis/RedisCacheRepository.java:67-81 | an HGETALL fault fails with that fault; otherwise it gives the stored four fields, or NO_RESULT_FOUND for a missing key |
| RedisRepository.RedisCacheRepository.FetchIfChanged | filter/src/main/java/dynks/redis/RedisCacheRepository.java:84-124 | a null key or a blank key fails with its IllegalArgumentException message before any connection is taken; a failure otherwise wraps a backend fault; without faults it succeeds; a success meets the four-shape contract of CacheRepository.java:14-31 for what is stored under the key and is the whole entry, NO_RESULT_FOUND or RESULT_FOUND_BUT_NOT_CHANGED |
| RedisRepository.RedisCacheRepository.Upsert | filter/src/main/java/dynks/redis/RedisCacheRepository.java:127-143 | succeeds exactly when a connection is taken and HMSET (ttl 0) or MULTI/EXEC goes through, leaving the store of StoreAfterUpsert; a failure wraps a backend error and changes nothing |
| RedisRepository.RedisCacheRepository.Remove | filter/src/main/java/dynks/redis/RedisCacheRepository.java:146-155 | on success deletes that key and no other; a failure wraps the backend error and changes nothing |
| RedisRepository.RedisCacheRepository.EvictRegion | filter/src/main/java/dynks/redis/RedisCacheRepository.java:169-182 | (`Evicted`) a connection failure fails before any command; otherwise it succeeds exactly when the batches' commands go through and sends the stringified batch size with at least one EVALSHA; a success deletes exactly the region's matching keys and returns their number, for the source's script whatever the batch size (only the corrected script under batch size 0 deletes nothing); a failure changes no key |
| RedisRepository.RedisCacheRepository.EvictRegionInDefaultBatches | filter/src/main/java/dynks/redis/RedisCacheRepository.java:158-166 | everything EvictRegion promises, with the repository's own batch size |
| RedisRepository.RedisCacheRepository.Dispose | filter/src/main/java/dynks/redis/RedisCacheRepository.java:186-189 | after it, every connection attempt fails with the closed-pool error |
| RedisRepository.UpsertThenFetch | filter/src/test/java/dynks/cache/RedisCacheRepositoryTest.java:131-159 | after an upsert into a region that keeps entries, fetching without an etag returns the entry whole, with its own etag gives RESULT_FOUND_BUT_NOT_CHANGED, and with any other etag returns it whole |
| RedisRepository.SubSecondTtlCachesNothing | filter/src/main/java/dynks/redis/RedisCacheRepository.java:134-137 | a region with a positive ttl of 0 whole seconds stores nothing: any later fetch gives NO_RESULT_FOUND |
| RedisRepository.FourMillisecondRegionHasNoSeconds | filter/src/main/java/dynks/cache/CacheRegion.java:46 | a 4 ms region, as configured for "events", has 0 whole seconds |
| RedisRepository.RemoveThenFetch | filter/src/test/java/dynks/cache/RedisCacheRepositoryTest.java:334-347 | a removed key is reported as NO_RESULT_FOUND |
| RedisRepository.EvictionSeparatesRegions | filter/src/test/java/dynks/cache/RedisCacheRepositoryTest.java:307-331 | evicting a region's wildcard leaves none of its keys and every key of another region as it was |
| Redis.NoscriptReplyHasCode | filter/src/main/java/dynks/redis/DeleteAllEntriesInRegionCommand.java:66 | the server's NOSCRIPT error reply starts with "NOSCRIPT", the prefix the command tests |
| Redis.MatchingKeys | filter/src/main/java/dynks/redis/DeleteAllEntriesInRegionCommand.java:29 | the reply of KEYS is exactly the stored keys the pattern matches |
| Redis.RedisServer.HGetAllReply | filter/src/main/java/dynks/redis/RedisCacheRepository.java:69 | a fault fails; otherwise the stored entry, or none for a missing key |
| Redis.RedisServer.HGetEtagReply | filter/src/main/java/dynks/redis/RedisCacheRepository.java:104 | a fault fails; otherwise the stored etag field, or none for a missing key |
| Redis.RedisServer.HMSet | filter/src/main/java/dynks/redis/RedisCacheRepository.java:132 | overwrites the hash and keeps the key's time to live; a fault changes nothing |
| Redis.RedisServer.MultiHMSetExpire | filter/src/main/java/dynks/redis/RedisCacheRepository.java:134-137 | writes the hash with the given expiry, or deletes the key when the seconds are not positive; a fault changes nothing |
| Redis.RedisServer.Del | filter/src/main/java/dynks/redis/RedisCacheRepository.java:150 | deletes the key and counts it; a fault changes nothing |
| Redis.RedisServer.ScriptLoad | filter/src/main/java/dynks/redis/DeleteAllEntriesInRegionCommand.java:67 | caches the script under its digest and returns the digest |
| Redis.RedisServer.FlushScripts | filter/src/main/java/dynks/redis/DeleteAllEntriesInRegionCommand.java:12-16 | a script flush or a restart empties the script cache and changes nothing else |
| Redis.RedisServer.EvalSha | filter/src/main/java/dynks/redis/DeleteAllEntriesInRegionCommand.java:25-39 | fails with the fault, or with the NOSCRIPT reply for an unknown digest, changing nothing; otherwise deletes a subset of the matching keys as large as the script's count, and nothing else |
| Redis.RunBatchScript | filter/src/main/java/dynks/redis/DeleteAllEntriesInRegionCommand.java:29-39 | the script's loop deletes and counts matching keys one by one, ending with the count Deletions gives |
| DeleteScript.AsWrittenIgnoresLimit | filter/src/main/java/dynks/redis/DeleteAllEntriesInRegionCommand.java:25-39 | as written, comparing the counter with the string KEYS[2] never stops the loop: a batch deletes every matching key, whatever the limit |
| DeleteScript.AsWrittenExceedsLimitOfOne | filter/src/main/java/dynks/redis/DeleteAllEntriesInRegionCommand.java:32 | with two matching keys and limit "1" the as-written batch deletes 2 |
| DeleteScript.CappedHonoursLimit | filter/src/main/java/dynks/cache/CacheRepository.java:61-74 | the corrected script deletes min(limit, matching) keys for a limit written by `String.valueOf`, never more than a non-negative limit |
| DeleteScript.BatchMakesProgress | filter/src/main/java/dynks/redis/DeleteAllEntriesInRegionCommand.java:29-37 | either script deletes at least one and at most all of the matching keys when some match, unless the corrected script gets limit 0 |
| DeleteScript.CappedZeroLimitDeletesNothing | filter/src/main/java/dynks/redis/DeleteAllEntriesInRegionCommand.java:32-33 | with limit 0 the corrected script returns before deleting |
| JavaStrings.ToNumberOfValueOf | filter/src/main/java/dynks/redis/DeleteAllEntriesInRegionCommand.java:47 | Lua's `tonumber` reads back every int that `String.valueOf` wrote |
| DeleteCommand.FirstUseShaIsNeverLoaded | filter/src/main/java/dynks/redis/DeleteAllEntriesInRegionCommand.java:23 | the placeholder digest is never a loaded script's, so a new command's first batch meets NOSCRIPT |
| DeleteCommand.PatternIsOwnWildcard | filter/src/main/java/dynks/redis/DeleteAllEntriesInRegionCommand.java:77-87 | when every cached pattern is a wildcard of the strategy, a region gets its own wildcard |
| DeleteCommand.PatternSharedByEqualRegions | filter/src/main/java/dynks/redis/DeleteAllEntriesInRegionCommand.java:79-83 | the cache is keyed by region equality, so an equal region of another namespace is evicted with the first region's pattern |
| DeleteCommand.WildcardMatchesRegionKeys | filter/src/main/java/dynks/cache/NamespacedURIKeyStrategy.java:30-38 | a region's wildcard matches exactly the stored keys with the region's prefix |
| DeleteCommand.WildcardSelectsRegion | filter/src/main/java/dynks/cache/NamespacedURIKeyStrategy.java:30-52 | the wildcard takes every stored key of the region and no key of another colon-free region |
| DeleteCommand.SubsetOfSameSize | filter/src/main/java/dynks/redis/DeleteAllEntriesInRegionCommand.java:29-37 | a subset of the matching keys as large as all of them is all of them, so a batch that counts every match has deleted every match |
| DeleteCommand.BatchBookkeeping | filter/src/main/java/dynks/redis/DeleteAllEntriesInRegionCommand.java:49-52 | for either script, a batch keeps the deleted keys within those matching at the start and shrinks what still matches; a batch of the source's script deletes every key still matching; an empty batch leaves none matching, except for the corrected script under limit 0, which deletes nothing |
| DeleteCommand.FirstBatchStartsEviction | filter/src/main/java/dynks/redis/DeleteAllEntriesInRegionCommand.java:49-51 | the first batch's deletions start the eviction's bookkeeping |
| DeleteCommand.EvictionEnds | filter/src/main/java/dynks/redis/DeleteAllEntriesInRegionCommand.java:52-54 | when a batch deletes nothing the total is the number of matching keys and all of them are gone, or, for the corrected script under limit 0, nothing is |
| DeleteCommand.NextBatchContinuesEviction | filter/src/main/java/dynks/redis/DeleteAllEntriesInRegionCommand.java:49-52 | a further batch keeps the bookkeeping; after the source's first batch a further batch deletes nothing |
| DeleteCommand.DeleteAllEntriesInRegionCommand.constructor | filter/src/main/java/dynks/redis/DeleteAllEntriesInRegionCommand.java:22-25 | an empty pattern cache, the placeholder digest, and the source's SCRIPT as the script to load |
| DeleteCommand.DeleteAllEntriesInRegionCommand.Corrected | filter/src/main/java/dynks/redis/DeleteAllEntriesInRegionCommand.java:32 | the same command loading the corrected script |
| DeleteCommand.DeleteAllEntriesInRegionCommand.GetRegionEvictionPattern | filter/src/main/java/dynks/redis/DeleteAllEntriesInRegionCommand.java:77-87 | returns the pattern cached for an equal region, else the region's wildcard, and caches it |
| DeleteCommand.DeleteAllEntriesInRegionCommand.EvalShaReloading | filter/src/main/java/dynks/redis/DeleteAllEntriesInRegionCommand.java:62-72 | EVALSHA with the digest in hand; only a NOSCRIPT reply loads the command's script, keeps its digest and retries once; it succeeds exactly when EVALSHA works and the digest is loaded or loading works; a success is a batch of the command's script; the commands issued are EVALSHA, or EVALSHA, SCRIPT LOAD, EVALSHA |
| DeleteCommand.DeleteAllEntriesInRegionCommand.ExecuteOneBatch | filter/src/main/java/dynks/redis/DeleteAllEntriesInRegionCommand.java:57-75 | the region's pattern, computed or cached, then EvalShaReloading of it |
| DeleteCommand.DeleteAllEntriesInRegionCommand.NextBatch | filter/src/main/java/dynks/redis/DeleteAllEntriesInRegionCommand.java:49-52 | a batch after a successful one cannot fail, issues one EVALSHA and carries the eviction on; for the source's script it deletes nothing |
| DeleteCommand.DeleteAllEntriesInRegionCommand.Execute | filter/src/main/java/dynks/redis/DeleteAllEntriesInRegionCommand.java:42-55 | runs batches until one deletes nothing and fails exactly when the first batch fails; a success returns the number of matching keys and has deleted all of them and nothing else (the corrected script under limit 0: 0 and nothing); the source's script is done after two batches |
| DeleteCommand.BatchAfterScriptFlush | filter/src/main/java/dynks/redis/DeleteAllEntriesInRegionCommand.java:12-16 | a server that has forgotten its scripts gets the script again: the batch issues EVALSHA, SCRIPT LOAD, EVALSHA and succeeds |
| Frontends.Frontend.constructor | filter/src/main/java/dynks/Frontend.java:38-41 | keeps both repositories |
| Frontends.Frontend.ResolveRegion | filter/src/main/java/dynks/Frontend.java:91-108 | a null id, a blank id and an unknown id fail with their IllegalArgumentException messages; a known id gives the configured region with that id |
| Frontends.Frontend.EvictRegion | filter/src/main/java/dynks/Frontend.java:131-133 | (`EvictedById`) a resolution failure is returned before any command; otherwise everything the repository's EvictRegion promises for the resolved region with the repository's batch size, a repository exception passed on |
| Frontends.Frontend.EvictRegionInBatchesAsWritten | filter/src/main/java/dynks/Frontend.java:143-150 | `n < 1` fails before any lookup or command; otherwise everything EvictRegion(id) promises, the batch size being the repository's and not `n` |
| Frontends.RequestedBatchSizeIsIgnored | filter/src/main/java/dynks/Frontend.java:149 | with a repository batch size of 1000, a successful request for batches of 15 sends the limit "1000", not "15" |
| Frontends.Frontend.EvictRegionInBatches | filter/src/main/java/dynks/Frontend.java:135-150 | `n < 1` fails first; otherwise the same as EvictRegion(id) but with batch size `n` |
| Frontends.RequestedBatchSizeIsSent | filter/src/main/java/dynks/Frontend.java:136-141 | the corrected method sends the limit "15" for the same request |
| Frontends.Frontend.GetDefaultMaxEntriesDeletedInOneBatch | filter/src/main/java/dynks/Frontend.java:152-154 | is the repository's batch size |
| Frontends.FrontendHolder.constructor | filter/src/main/java/dynks/Frontend.java:28 | no instance yet |
| Frontends.FrontendHolder.Initialize | filter/src/main/java/dynks/Frontend.java:50-68 | a null repository, then a null region repository, fail with NullPointerException; a second initialization fails with IllegalStateException and keeps the first instance; otherwise a new instance holds both |
| Frontends.FrontendHolder.Get | filter/src/main/java/dynks/Frontend.java:76-83 | fails with IllegalStateException exactly before initialization, and afterwards returns the instance |
| Http.GetInAnyCase | filter/src/main/java/dynks/http/CachingFilter.java:60 | the method test ignores case: GET, get and Get pass; POST, HEAD, GETS and the empty method do not |
| Http.FilterChain.DoFilter | filter/src/main/java/dynks/http/CachingFilter.java:133 | the handler runs once and writes status, headers and body into the response |
| Http.FilterChain.DoFilterBuffered | filter/src/main/java/dynks/http/CachingFilter.java:85-88 | the handler runs once; status and headers reach the response, the body goes to the buffer |
| Http.KeyIsNeverBlank | filter/src/main/java/dynks/http/CachingFilter.java:77-80 | a key the filter builds is never blank, so the fetch never fails on its key |
| Http.QueryStringIsIgnored | filter/src/main/java/dynks/http/CachingFilter.java:69-77 | requests differing only in their query strings share their region and their key |
| Http.RegeneratedThenRevalidated | filter/src/main/java/dynks/http/CachingFilter.java:83-98 | a regenerated and stored response is, for the etag sent with it, not modified, and without an etag it is found whole |
| Http.CachingFilter.constructor | filter/src/main/java/dynks/http/CachingFilter.java:38-40 | no repository, no policy, hardened mode off |
| Http.CachingFilter.Init | filter/src/main/java/dynks/http/CachingFilter.java:43-52 | sets the hardened flag and the repository; a rejected configuration fails and leaves the policy and the frontend as they were; otherwise the policy is the built regions, and the frontend is initialized with both or reports that it already was |
| Http.CachingFilter.OnRepositoryError | filter/src/main/java/dynks/http/CachingFilter.java:138-148 | hardened mode runs the handler on the response itself; otherwise a ServletException wrapping the error, with the response untouched |
| Http.CachingFilter.DoFilter | filter/src/main/java/dynks/http/CachingFilter.java:54-136 | a non-GET or passthrough request runs the handler once with the store unchanged; a cached one behaves as CacheableOutcome for the region's key and the client's etag |
| Http.CachingFilter.FilterCacheable | filter/src/main/java/dynks/http/CachingFilter.java:77-126 | a fetch error goes to onRepositoryError; the client's etag equal to the stored one gives 304 with no body; another etag, or none, gives the stored entry with status 200; nothing stored regenerates; only regeneration or a hardened fallback runs the handler |
| Http.CachingFilter.Regenerate | filter/src/main/java/dynks/http/CachingFilter.java:83-103 | a stored response is sent with its new etag and kept in the store; a failed upsert leaves the store as it was and, in hardened mode, runs the handler a second time |
| Http.CachingFilter.Destroy | filter/src/main/java/dynks/http/CachingFilter.java:156-162 | disposes the repository when there is one |
| Diagnostics.Field | filter/src/main/java/dynks/jmx/Configuration.java:76-78 | a field is its name, `=` and the quoted value |
| Diagnostics.PresentFields | filter/src/main/java/dynks/jmx/Configuration.java:75-108 | one field for each of id, ttl and pattern that is present |
| Diagnostics.EntryJsonByFlag | filter/src/main/java/dynks/jmx/Configuration.java:73-110 | a line written field by field, with `", "` before each field that follows a present one, is the present fields joined by `", "` between `{` and `}\n` |
| Diagnostics.FullEntryJson | filter/src/main/java/dynks/jmx/Configuration.java:73-110 | the line of a region with all three fields |
| Diagnostics.EntryJsonAsWritten | filter/src/main/java/dynks/jmx/Configuration.java:73-110 | the source's line is the intended one unless an id and a pattern surround a missing ttl, and two characters shorter then |
| Diagnostics.AsWrittenDropsSeparatorAfterGap | filter/src/main/java/dynks/jmx/Configuration.java:93-108 | for id "a", no ttl and pattern "/x" the source writes `{id="a"pattern="/x"}` |
| Diagnostics.IntendedKeepsSeparatorAfterGap | filter/src/main/java/dynks/jmx/Configuration.java:97-105 | for the same region the intended line is `{id="a", pattern="/x"}` |
| Diagnostics.LinesSnoc | filter/src/main/java/dynks/jmx/Configuration.java:66-71 | one more region appends `",\n"`, unless it is the first, and then its line |
| Diagnostics.RegionsJsonSnoc | filter/src/main/java/dynks/jmx/Configuration.java:66-71 | the same for the intended attribute |
| Diagnostics.GetRegionsJson | filter/src/main/java/dynks/jmx/Configuration.java:61-115 | the loop, with the source's `found = false` on each missing field, builds the source's lines separated by `",\n"` |
| Diagnostics.AsWrittenLength | filter/src/main/java/dynks/jmx/Configuration.java:61-115 | the source's attribute is two characters shorter than the intended one per region with the gap |
| Diagnostics.AsWrittenAgreesWithoutGaps | filter/src/main/java/dynks/jmx/Configuration.java:61-115 | without such a region the source's attribute is the intended one |
| Diagnostics.GapIsCounted | filter/src/main/java/dynks/jmx/Configuration.java:93-95 | a region with the gap is counted |
| Diagnostics.AsWrittenAgreesIffNoGap | filter/src/main/java/dynks/jmx/Configuration.java:61-115 | the source's attribute is the intended one exactly when no region has an id and a pattern around a missing ttl |
| Diagnostics.NoRegionsNoText | filter/src/main/java/dynks/jmx/Configuration.java:64-66 | no regions give the empty string |
| Diagnostics.SampleLine | filter/src/test/java/dynks/jmx/JmxServerTestIT.java:110 | a region with all three fields is written `{id="…", ttl="…", pattern="…"}` and a newline |
| Diagnostics.SampleConfigurationJson | filter/src/test/java/dynks/jmx/JmxServerTestIT.java:103-115 | the source writes the three sample regions, which miss no field, as the exact string the test expects, which is also the intended text |

## Left out

- Connection pooling: the pool is a `disposed` flag and a fault for taking a connection. Pool configuration, host, port and their getters are not modelled.
- Redis is modelled as a map-backed store. There is no network and no clock: a time to live is recorded, never counted down. KEYS patterns are only prefix-with-`*` or exact; other glob metacharacters are not modelled.
- Entries vanishing between HGET and HGETALL are not modelled, because only one request runs at a time. Hash fields stored as null are not modelled either: an upsert always writes four strings.
- Servlet transport is not modelled: streams, flushing, and the character-set conversions of the body (`baos.toString(encoding)`, `getBytes(encoding)`). The body is a string written as is.
- `CachedResponseWrapper` is not part of this model. It is taken to pass status and headers through and to capture only the body.
- The handler is taken to always set a status, a content type and an encoding. Its own exceptions are not modelled.
- `ETag.of`, `URIMatcher.matches` and `Duration.toString` are not part of this model; they are function parameters.
- `ETag.getFrom` is the request's `clientEtag` field. `ETag.writeIn` sets the response's etag field.
- Logging, probes and timing are not modelled (`LOG`, `Probe`, `nanoTime`).
- The JMX server is not modelled: `init` does not start it.
- `init`'s configuration loading is not modelled (`ConfigFactory.load`, `RedisCacheRepositoryConfigBuilder`). The hardened flag, the repository, the namespace and the parsed region list are parameters.
- The other `Configuration` getters are thin reads of the configuration and are not modelled.
- Concurrency is not modelled: the `synchronized` block of `Frontend.initialize`, races on the `ConcurrentHashMap` pattern cache, and writers running during an eviction.
- Regions.TtlInSeconds: requires `TtlFits`, so ttls whose seconds exceed an int are excluded; the `(int)` cast's wrap-around is not modelled.
- Regions.NewRegion: the `(int)` cast of the seconds is not modelled for ttls whose seconds exceed an int. Callers must meet `TtlFits`.
- Regions.NewCachedRegion: carries the same `TtlFits` bound. Its precomputed hash code is not modelled: the four-argument constructor hashes id, ttl, unit and cacheability (CacheRegion.java:49), the five-argument one also the key strategy (CacheRegion.java:38), so equal regions from the two constructors generally have different hash codes.
- DeleteCommand.DeleteAllEntriesInRegionCommand.GetRegionEvictionPattern: the pattern cache is keyed by region equality alone. The source's `ConcurrentHashMap` also needs equal hash codes, so it shares a cached pattern only between equal regions built by the same constructor (barring a hash collision); a region from the other constructor gets its own wildcard there.
- DeleteCommand.PatternSharedByEqualRegions: carries the same limitation; across the two constructors the source does not share the pattern. The filter itself builds every configured region with the four-argument constructor, and PASSTHROUGH differs in cacheability, so within the filter the two agree.
- RegionBuilder.Build: carries the same bound (`TtlsFit`). The ttl is read directly as milliseconds from the parsed record.
- Http.CachingFilter.Init: carries the same bound (`TtlsFit`).
- RegionBuilder.Build: the builder's `HashMap<URIMatcher, CacheRegion>` is a sequence in configuration order. The order in which `getfor` tries the patterns is therefore configuration order, not hash order. Two regions with equal patterns both stay, where the `HashMap` keeps only the later one; `URIMatcher.equals` is not part of this model.
- The repository's batch size is any int. A batch size below 1 is rejected by the configuration builder (filter/src/test/java/dynks/cache/RedisCacheRepositoryConfigBuilderTest.java:75-82), which is not part of this model. With the source's script the batch size makes no difference anyway.
- DeleteCommand.DeleteAllEntriesInRegionCommand.Execute: faults are fixed per command kind for a whole run, so once the first EVALSHA of an eviction succeeds, every later one does too. A later batch failing after earlier batches have deleted keys is not modelled; on a real server those deletions stay. "Fails exactly when the first batch fails" and "a failure changes no key" follow from the fixed fault table.
- RedisRepository.RedisCacheRepository.EvictRegion: carries the same fixed-fault limitation as Execute.
- The delete command is the only client of the script cache. `getMaxEntriesDeletedInOneBatch` is a constant field of the repository.
- Http.CachingFilter.DoFilter: requires a completed `init` (a policy and a valid repository), because the source dereferences both.

## Findings

| source | as written | input that shows it | evidently intended | confidence | as-written member | corrected member |
|---|---|---|---|---|---|---|
| filter/src/main/java/dynks/redis/DeleteAllEntriesInRegionCommand.java:32 | the Lua script compares the counter, a number, with `KEYS[2]`, a string; Lua's `==` never equates them, so no batch stops at the limit, and the command's first batch deletes every matching key | two keys match and the limit is "1": the batch deletes 2 | compare with `tonumber(KEYS[2])`, so a batch deletes at most the limit, as CacheRepository.java:61-65 describes | not executed | DeleteScript.AsWrittenIgnoresLimit, DeleteScript.AsWrittenExceedsLimitOfOne, DeleteCommand.DeleteAllEntriesInRegionCommand.Execute | DeleteScript.CappedHonoursLimit, DeleteCommand.DeleteAllEntriesInRegionCommand.Corrected |
| filter/src/main/java/dynks/Frontend.java:149 | `evictRegion(id, n)` checks `n` and then calls `evictRegion(region)`, so the repository's batch size is used | default batch size 1000, a request for 15: the limit sent is "1000" | `repository.evictRegion(region, n)`, as the method's documentation says | not executed | Frontends.Frontend.EvictRegionInBatchesAsWritten, Frontends.RequestedBatchSizeIsIgnored | Frontends.Frontend.EvictRegionInBatches, Frontends.RequestedBatchSizeIsSent |
| filter/src/main/java/dynks/jmx/Configuration.java:93-95 | `found` is cleared when the ttl is missing, so a pattern after a present id gets no separator | a region with id "a", pattern "/x" and no ttl is written `{id="a"pattern="/x"}`; the filter cannot reach it, because `init` builds the policy before the JMX server (filter/src/main/java/dynks/http/CachingFilter.java:48-50) and the builder rejects a region without a ttl (filter/src/main/java/dynks/cache/ResponseCacheByURIBuilder.java:53), so it shows only for a `JmxServer` built directly from a configuration, as filter/src/test/java/dynks/jmx/JmxServerTestIT.java:29 builds one | `{id="a", pattern="/x"}`: a separator before every field after the first present one | not executed | Diagnostics.EntryJsonAsWritten, Diagnostics.GetRegionsJson, Diagnostics.AsWrittenDropsSeparatorAfterGap, Diagnostics.AsWrittenAgreesIffNoGap | Diagnostics.EntryJsonByFlag, Diagnostics.IntendedKeepsSeparatorAfterGap |
