/**
 * CachingFilter: the servlet filter that answers GET requests from the cache using ETag
 * negotiation (conditional GET with `ETag` and `304 Not Modified`, sections 2.3 and 4.1 of
 * RFC 7232), and passes everything else to the downstream handler.
 */
module Http {
  import opened Wrappers
  import opened JavaStrings
  import opened KeyStrategy
  import opened Regions
  import opened RegionConfigs
  import opened RegionRepository
  import opened RegionBuilder
  import opened CacheRepository
  import opened Redis
  import opened RedisRepository
  import opened Frontends

  const SC_OK: int := 200
  const SC_NOT_MODIFIED: int := 304

  /**
   * A request: its method, its URI without the query string, the query string, and the etag
   * the client sent (what ETag.getFrom reads from its headers; None when it sent none).
   */
  datatype Request = Request(httpMethod: string, uri: string, queryString: Option<string>, clientEtag: Option<string>)

  /** What the downstream handler writes: a status, the two headers the filter reads, a body. */
  datatype Produced = Produced(status: int, contentType: string, encoding: string, body: string)

  /** The response as the client receives it: status, headers and what was written. */
  datatype ResponseState = ResponseState(status: int, contentType: string, encoding: string, etag: Option<string>, out: string)

  function AsciiUpper(c: char): char {
    if 'a' <= c <= 'z' then (c as int - 32) as char else c
  }

  /**
   * `GET.equalsIgnoreCase(method)`. No character other than the ASCII letters maps to `G`,
   * `E` or `T` under Java's case conversions, so comparing ASCII upper cases is exact.
   */
  predicate IsGetMethod(httpMethod: string) {
    && |httpMethod| == 3
    && AsciiUpper(httpMethod[0]) == 'G' && AsciiUpper(httpMethod[1]) == 'E' && AsciiUpper(httpMethod[2]) == 'T'
  }

  lemma GetInAnyCase()
    ensures IsGetMethod("GET") && IsGetMethod("get") && IsGetMethod("Get")
    ensures !IsGetMethod("POST") && !IsGetMethod("HEAD") && !IsGetMethod("GETS") && !IsGetMethod("")
  {
  }

  /** The response once the handler's status and headers reached it (its body did not). */
  function WithHeaders(s: ResponseState, p: Produced): ResponseState {
    s.(status := p.status, contentType := p.contentType, encoding := p.encoding)
  }

  /** The response once the handler wrote into it. */
  function Handled(s: ResponseState, p: Produced): ResponseState {
    WithHeaders(s, p).(out := s.out + p.body)
  }

  /** The response carrying a stored entry: its headers, its etag, status 200, its payload. */
  function Served(s: ResponseState, e: Entry): ResponseState {
    s.(encoding := e.encoding, contentType := e.contentType, etag := Some(e.etag), status := SC_OK, out := s.out + e.payload)
  }

  /** The entry a freshly generated response is stored as. */
  function Generated(p: Produced, etagOf: string -> string): Entry {
    Entry(p.body, etagOf(p.body), p.contentType, p.encoding)
  }

  class HttpResponse {
    var status: int
    var contentType: string
    var encoding: string
    var etag: Option<string>
    var out: string

    constructor(initial: ResponseState)
      ensures State() == initial
    {
      status, contentType, encoding, etag, out := initial.status, initial.contentType, initial.encoding, initial.etag, initial.out;
    }

    function State(): ResponseState
      reads this
    {
      ResponseState(status, contentType, encoding, etag, out)
    }
  }

  /** The rest of the filter chain, ending in the handler that produces the content. */
  class FilterChain {
    const handler: Request -> Produced
    var invocations: nat

    constructor(handler: Request -> Produced)
      ensures this.handler == handler && invocations == 0
    {
      this.handler := handler;
      invocations := 0;
    }

    /** chain.doFilter on the response itself. */
    method DoFilter(req: Request, res: HttpResponse)
      modifies this, res
      ensures invocations == old(invocations) + 1
      ensures res.State() == Handled(old(res.State()), handler(req))
    {
      invocations := invocations + 1;
      var p := handler(req);
      res.status, res.contentType, res.encoding := p.status, p.contentType, p.encoding;
      res.out := res.out + p.body;
    }

    /**
     * chain.doFilter on a CachedResponseWrapper: status and headers go through to the
     * response, the body is captured in a buffer instead.
     */
    method DoFilterBuffered(req: Request, res: HttpResponse) returns (buffer: string)
      modifies this, res
      ensures invocations == old(invocations) + 1
      ensures res.State() == WithHeaders(old(res.State()), handler(req)) && buffer == handler(req).body
    {
      invocations := invocations + 1;
      var p := handler(req);
      res.status, res.contentType, res.encoding := p.status, p.contentType, p.encoding;
      buffer := p.body;
    }
  }

  datatype ServletException = ServletException(cause: CacheRepositoryException)

  /** What init can throw: the region configuration is rejected, or the frontend refuses it. */
  datatype InitError =
    | ConfigurationError(buildError: BuildError)
    | FrontendInitError(frontendError: FrontendError)

  /** A storage key a filter builds is never blank: it holds the colon after the namespace. */
  lemma KeyIsNeverBlank(ks: NamespacedURIKeyStrategy, uri: string, id: string)
    ensures Trim(ks.KeyFor(uri, id)) != []
  {
    var k := ks.KeyFor(uri, id);
    assert k[|ks.namespace|] == ':';
    TrimIsEmptyIff(k);
  }

  /** Two requests differing only in their query strings share their region and their key. */
  lemma QueryStringIsIgnored(repo: CacheByURIRegionRepository, a: Request, b: Request, matches: (URIMatcher, string) -> bool)
    requires a.uri == b.uri
    ensures repo.Getfor(a.uri, matches) == repo.Getfor(b.uri, matches)
    ensures var region := repo.Getfor(a.uri, matches);
            region.keyStrategy.KeyFor(a.uri, region.id) == region.keyStrategy.KeyFor(b.uri, region.id)
  {
  }

  /**
   * A response regenerated and stored for a region that keeps entries is, to a client that
   * presents the etag it was given, not modified; to any other client it is served whole.
   */
  lemma RegeneratedThenRevalidated(cache: RedisCacheRepository, before: map<string, Stored>, region: CacheRegion,
                                   uri: string, p: Produced, etagOf: string -> string)
    requires cache.server.store == StoreAfterUpsert(before, region.keyStrategy.KeyFor(uri, region.id), Generated(p, etagOf), region)
    requires region.ttl == 0 || region.ttlInSeconds > 0
    requires cache.ConnectionFault().None? && cache.server.FaultFor(HGET).None? && cache.server.FaultFor(HGETALL).None?
    ensures var key := region.keyStrategy.KeyFor(uri, region.id);
            && cache.FetchIfChanged(Some(key), Some(etagOf(p.body))) == Success(RESULT_FOUND_BUT_NOT_CHANGED)
            && cache.FetchIfChanged(Some(key), None) == Success(Found(Generated(p, etagOf)))
  {
    var key := region.keyStrategy.KeyFor(uri, region.id);
    KeyIsNeverBlank(region.keyStrategy, uri, region.id);
    UpsertThenFetch(cache, before, key, Generated(p, etagOf), region);
  }

  class CachingFilter {
    var cache: RedisCacheRepository?
    var policy: Option<CacheByURIRegionRepository>
    var hardenedModeEnabled: bool

    constructor()
      ensures cache == null && policy.None? && !hardenedModeEnabled
    {
      cache := null;
      policy := None;
      hardenedModeEnabled := false;
    }

    /**
     * init: reads the hardened-mode flag, takes the repository, builds the region policy
     * and hands both to the frontend. The configuration is passed in already parsed.
     */
    method Init(hardenedMode: bool, repository: RedisCacheRepository, namespace: string, regions: seq<RegionConfig>,
                frontend: FrontendHolder)
      returns (r: Result<(), InitError>)
      requires TtlsFit(regions)
      modifies this, frontend
      ensures hardenedModeEnabled == hardenedMode && cache == repository
      ensures (exists i :: 0 <= i < |regions| && CheckRegion(regions[i], IdsBefore(regions, i)).Some?) ==>
                && r.Failure? && r.error.ConfigurationError?
                && policy == old(policy) && frontend.instance == old(frontend.instance)
      ensures (forall i :: 0 <= i < |regions| ==> CheckRegion(regions[i], IdsBefore(regions, i)).None?) ==>
                && policy.Some? && policy.value.Valid() && |policy.value.regions| == |regions|
                && (forall i :: 0 <= i < |regions| ==>
                      policy.value.regions[i] == BuiltEntry(NamespacedURIKeyStrategy(namespace), regions[i]))
                && (old(frontend.instance) != null ==>
                      r == Failure(FrontendInitError(IllegalStateException(ALREADY_INITIALIZED_MESSAGE)))
                      && frontend.instance == old(frontend.instance))
                && (old(frontend.instance) == null ==>
                      && r.Success? && frontend.instance != null
                      && frontend.instance.repository == repository && frontend.instance.regionRepository == policy.value)
    {
      hardenedModeEnabled := hardenedMode;
      cache := repository;
      var built := Build(namespace, regions);
      if built.Failure? {
        return Failure(ConfigurationError(built.error));
      }
      policy := Some(built.value);
      var initialized := frontend.Initialize(cache, policy);
      if initialized.Failure? {
        return Failure(FrontendInitError(initialized.error));
      }
      return Success(());
    }

    /** onRepositoryError: in hardened mode the handler serves the request, else the error propagates. */
    method OnRepositoryError(e: CacheRepositoryException, req: Request, res: HttpResponse, chain: FilterChain)
      returns (r: Result<(), ServletException>)
      modifies res, chain
      ensures hardenedModeEnabled ==>
                r.Success? && res.State() == Handled(old(res.State()), chain.handler(req))
                && chain.invocations == old(chain.invocations) + 1
      ensures !hardenedModeEnabled ==>
                r == Failure(ServletException(e)) && res.State() == old(res.State())
                && chain.invocations == old(chain.invocations)
    {
      if hardenedModeEnabled {
        chain.DoFilter(req, res);
        return Success(());
      } else {
        return Failure(ServletException(e));
      }
    }

    /**
     * doFilter. A request that is not a GET, or whose URI falls in no cached region, goes to the
     * handler untouched, and the cache is not asked. Any other request is answered by
     * FilterCacheable with the region's key for the URI and the client's etag.
     */
    method DoFilter(req: Request, res: HttpResponse, chain: FilterChain,
                    matches: (URIMatcher, string) -> bool, etagOf: string -> string)
      returns (r: Result<(), ServletException>)
      requires policy.Some? && cache != null && cache.Valid()
      modifies res, chain, cache.server
      ensures cache.Valid()
      ensures var region := policy.value.Getfor(req.uri, matches);
              !IsGetMethod(req.httpMethod) || region.cacheability == Passthrough ==>
                && r.Success? && res.State() == Handled(old(res.State()), chain.handler(req))
                && chain.invocations == old(chain.invocations) + 1 && cache.server.store == old(cache.server.store)
      ensures var region := policy.value.Getfor(req.uri, matches);
              var key := region.keyStrategy.KeyFor(req.uri, region.id);
              var requestEtag := req.clientEtag;
              IsGetMethod(req.httpMethod) && region.cacheability == Cached ==>
                CacheableOutcome(hardenedModeEnabled, old(cache.FetchIfChanged(Some(key), requestEtag)),
                                 StoredEntry(old(cache.server.store), key), requestEtag, UpsertSucceeds(cache, region),
                                 key, region, chain.handler(req), etagOf,
                                 old(res.State()), res.State(), old(chain.invocations), chain.invocations,
                                 old(cache.server.store), cache.server.store, r)
    {
      if !IsGetMethod(req.httpMethod) {
        chain.DoFilter(req, res);
        return Success(());
      }
      var cacheRegion := policy.value.Getfor(req.uri, matches);
      if cacheRegion.cacheability == Passthrough {
        chain.DoFilter(req, res);
        return Success(());
      }
      var key := cacheRegion.keyStrategy.KeyFor(req.uri, cacheRegion.id);
      var requestEtag := req.clientEtag;
      KeyIsNeverBlank(cacheRegion.keyStrategy, req.uri, cacheRegion.id);
      r := FilterCacheable(req, res, chain, cacheRegion, key, requestEtag, etagOf);
    }

    /**
     * The cached branch of doFilter: the cache is asked with the client's etag. Nothing stored
     * regenerates the response, stores it and sends it with its new etag; the client's etag
     * current answers 304 with no body; anything else sends the stored entry with status 200.
     * A repository error goes to onRepositoryError.
     */
    method FilterCacheable(req: Request, res: HttpResponse, chain: FilterChain, region: CacheRegion, key: string,
                           requestEtag: Option<string>, etagOf: string -> string)
      returns (r: Result<(), ServletException>)
      requires cache != null && cache.Valid() && Trim(key) != []
      modifies res, chain, cache.server
      ensures cache.Valid()
      ensures CacheableOutcome(hardenedModeEnabled, old(cache.FetchIfChanged(Some(key), requestEtag)),
                               StoredEntry(old(cache.server.store), key), requestEtag, UpsertSucceeds(cache, region),
                               key, region, chain.handler(req), etagOf,
                               old(res.State()), res.State(), old(chain.invocations), chain.invocations,
                               old(cache.server.store), cache.server.store, r)
    {
      var result := cache.FetchIfChanged(Some(key), requestEtag);
      if result.Failure? {
        r := OnRepositoryError(result.error, req, res, chain);
        return;
      }
      var found := result.value;
      if found.upsertNeeded {
        r := Regenerate(req, res, chain, region, key, etagOf);
        return;
      }
      if found.storedEtag.None? {
        res.status := SC_NOT_MODIFIED;
        return Success(());
      }
      res.encoding := found.encoding.value;
      res.contentType := found.contentType.value;
      res.etag := found.storedEtag;
      res.status := SC_OK;
      res.out := res.out + found.payload.value;
      return Success(());
    }

    /**
     * The regenerating branch of doFilter: the handler writes into a buffer, the buffer is stored
     * under the key with its etag, and the etag header and the buffer are sent.
     */
    method Regenerate(req: Request, res: HttpResponse, chain: FilterChain, region: CacheRegion, key: string,
                      etagOf: string -> string)
      returns (r: Result<(), ServletException>)
      requires cache != null && cache.Valid()
      modifies res, chain, cache.server
      ensures cache.Valid()
      ensures RegenerateOutcome(hardenedModeEnabled, UpsertSucceeds(cache, region), key, region, chain.handler(req), etagOf,
                                old(res.State()), res.State(), old(chain.invocations), chain.invocations,
                                old(cache.server.store), cache.server.store, r)
    {
      var generated := chain.DoFilterBuffered(req, res);
      var encoding := res.encoding;
      var etag := etagOf(generated);
      var stored := cache.Upsert(key, generated, etag, res.contentType, encoding, region);
      if stored.Failure? {
        r := OnRepositoryError(stored.error, req, res, chain);
        return;
      }
      res.etag := Some(etag);
      res.out := res.out + generated;
      return Success(());
    }

    /** destroy: disposes the repository, if init got as far as taking one. */
    method Destroy()
      modifies if cache != null then {cache} else {}
      ensures cache != null ==> cache.disposed && cache.ConnectionFault() == Some(POOL_CLOSED)
    {
      if cache != null {
        cache.Dispose();
      }
    }
  }

  /** Whether an upsert into the region gets through: a connection, then HMSET or MULTI/EXEC. */
  predicate UpsertSucceeds(cache: RedisCacheRepository, region: CacheRegion)
    reads cache, cache.server
  {
    cache.ConnectionFault().None? && cache.server.FaultFor(if region.ttl == 0 then HMSET else MULTI).None?
  }

  /** How onRepositoryError leaves the response, the chain and the result. */
  predicate RepositoryErrorHandled(hardened: bool, e: CacheRepositoryException, before: ResponseState, after: ResponseState,
                                   p: Produced, runsBefore: nat, runsAfter: nat, r: Result<(), ServletException>)
  {
    && (hardened ==> r.Success? && after == Handled(before, p) && runsAfter == runsBefore + 1)
    && (!hardened ==> r == Failure(ServletException(e)) && after == before && runsAfter == runsBefore)
  }

  /**
   * The regenerating branch: a stored response is sent with its new etag; a failed upsert
   * leaves the store as it was and, in hardened mode, has the handler run a second time, on
   * the response itself.
   */
  predicate RegenerateOutcome(hardened: bool, stores: bool, key: string, region: CacheRegion, p: Produced,
                              etagOf: string -> string, before: ResponseState, after: ResponseState,
                              runsBefore: nat, runsAfter: nat, storeBefore: map<string, Stored>,
                              storeAfter: map<string, Stored>, r: Result<(), ServletException>)
  {
    && (stores ==>
          && r.Success? && runsAfter == runsBefore + 1
          && after == Handled(before, p).(etag := Some(etagOf(p.body)))
          && storeAfter == StoreAfterUpsert(storeBefore, key, Generated(p, etagOf), region))
    && (!stores ==>
          && storeAfter == storeBefore
          && (hardened ==> r.Success? && after == Handled(before, p) && runsAfter == runsBefore + 2)
          && (!hardened ==>
                && r.Failure? && r.error.cause.cause.Backend?
                && after == WithHeaders(before, p) && runsAfter == runsBefore + 1))
  }

  /**
   * The cached branch, given what fetchIfChanged answered and what was stored under the key:
   * a repository error is handled by onRepositoryError; the client's etag equal to the stored
   * one gives 304 with nothing written; another etag, or none, gives the stored entry with
   * status 200; nothing stored regenerates the response. Only regeneration runs the handler.
   */
  predicate CacheableOutcome(hardened: bool, fetched: Result<CacheQueryResult, CacheRepositoryException>,
                             stored: Option<Entry>, requestEtag: Option<string>, stores: bool,
                             key: string, region: CacheRegion, p: Produced, etagOf: string -> string,
                             before: ResponseState, after: ResponseState, runsBefore: nat, runsAfter: nat,
                             storeBefore: map<string, Stored>, storeAfter: map<string, Stored>,
                             r: Result<(), ServletException>)
  {
    && (fetched.Failure? ==>
          RepositoryErrorHandled(hardened, fetched.error, before, after, p, runsBefore, runsAfter, r)
          && storeAfter == storeBefore)
    && (fetched.Success? && stored.Some? && requestEtag == Some(stored.value.etag) ==>
          && r.Success? && after == before.(status := SC_NOT_MODIFIED)
          && runsAfter == runsBefore && storeAfter == storeBefore)
    && (fetched.Success? && stored.Some? && requestEtag != Some(stored.value.etag) ==>
          && r.Success? && after == Served(before, stored.value)
          && runsAfter == runsBefore && storeAfter == storeBefore)
    && (fetched.Success? && stored.None? ==>
          RegenerateOutcome(hardened, stores, key, region, p, etagOf, before, after, runsBefore, runsAfter,
                            storeBefore, storeAfter, r))
  }
}
