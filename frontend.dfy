/**
 * Frontend: the application-facing singleton through which regions are evicted by id.
 */
module Frontends {
  import opened Wrappers
  import opened JavaStrings
  import opened Regions
  import opened RegionRepository
  import opened CacheRepository
  import opened Redis
  import opened DeleteScript
  import opened DeleteCommand
  import opened RedisRepository

  datatype FrontendError =
    | IllegalArgumentException(message: string)
    | IllegalStateException(message: string)
    | NullPointerException(message: string)
    | RepositoryFailure(error: CacheRepositoryException)

  const NULL_REGION_ID_MESSAGE: string := "Id of region should not be null"
  const BLANK_REGION_ID_MESSAGE: string := "Id of region should not be empty"
  const BATCH_SIZE_MESSAGE: string := "maxEntriesDeletedInOneBatch should not be at least 1"
  const NULL_CACHE_MESSAGE: string := "CacheRepository to register should not be null"
  const NULL_REGIONS_MESSAGE: string := "CacheRegionRepository to register should not be null"
  const ALREADY_INITIALIZED_MESSAGE: string := "Frontend already initialized"
  const NOT_INITIALIZED_MESSAGE: string := "Frontend not yet initialized :(. This indicates serious internal problem."

  function UnknownRegionMessage(id: string): string {
    "Attempt to evict not existing region: '" + id + "', please check id and try again"
  }

  class Frontend {
    const repository: RedisCacheRepository
    const regionRepository: CacheByURIRegionRepository

    predicate Valid()
      reads repository, repository.server, repository.deleteCommand
    {
      repository.Valid() && regionRepository.Valid()
    }

    constructor(repository: RedisCacheRepository, regionRepository: CacheByURIRegionRepository)
      ensures this.repository == repository && this.regionRepository == regionRepository
    {
      this.repository := repository;
      this.regionRepository := regionRepository;
    }

    /** resolveRegion: the configured region with the given id, or why there is none. */
    function ResolveRegion(id: Option<string>): (r: Result<CacheRegion, FrontendError>)
      requires regionRepository.Valid()
      ensures id.None? ==> r == Failure(IllegalArgumentException(NULL_REGION_ID_MESSAGE))
      ensures id.Some? && Trim(id.value) == [] ==> r == Failure(IllegalArgumentException(BLANK_REGION_ID_MESSAGE))
      ensures id.Some? && Trim(id.value) != [] ==>
                && (r.Success? <==> exists i :: 0 <= i < |regionRepository.regions| && regionRepository.regions[i].1.id == id.value)
                && (r.Failure? ==> r.error == IllegalArgumentException(UnknownRegionMessage(id.value)))
      ensures r.Success? ==> r.value.id == id.value && r.value in Values(regionRepository.regions)
    {
      if id.None? then Failure(IllegalArgumentException(NULL_REGION_ID_MESSAGE))
      else if Trim(id.value) == [] then Failure(IllegalArgumentException(BLANK_REGION_ID_MESSAGE))
      else
        match regionRepository.GetById(id.value)
        case None => Failure(IllegalArgumentException(UnknownRegionMessage(id.value)))
        case Some(region) => Success(region)
    }

    /**
     * What evicting the region named `id` with batch size `max` brings about: a failure to
     * resolve the id is returned before any command; otherwise it is the repository's eviction
     * of the resolved region with that batch size, a repository exception being passed on.
     */
    twostate predicate EvictedById(id: Option<string>, max: int, new r: Result<int, FrontendError>)
      requires regionRepository.Valid()
      reads repository, repository.server, repository.deleteCommand
    {
      match ResolveRegion(id)
      case Failure(e) =>
        && r == Failure(e)
        && repository.server.store == old(repository.server.store)
        && repository.server.log == old(repository.server.log)
      case Success(region) =>
        && (r.Failure? ==> r.error.RepositoryFailure?)
        && repository.Evicted(region, max, if r.Success? then Success(r.value) else Failure(r.error.error))
    }

    /** evictRegion(id): evicts the region with the repository's own batch size. */
    method EvictRegion(id: Option<string>) returns (r: Result<int, FrontendError>)
      requires Valid()
      modifies repository.server, repository.deleteCommand
      ensures Valid() && EvictedById(id, repository.maxEntriesDeletedInOneBatch, r)
    {
      var region := ResolveRegion(id);
      if region.Failure? {
        return Failure(region.error);
      }
      var removed := repository.EvictRegionInDefaultBatches(region.value);
      if removed.Failure? {
        return Failure(RepositoryFailure(removed.error));
      }
      return Success(removed.value);
    }

    /**
     * evictRegion(id, maxEntriesDeletedInOneBatch) as written: the batch size is checked and
     * then not passed on, so the repository's own batch size is used.
     */
    method EvictRegionInBatchesAsWritten(id: Option<string>, maxEntriesDeletedInOneBatch: int) returns (r: Result<int, FrontendError>)
      requires Valid()
      modifies repository.server, repository.deleteCommand
      ensures Valid()
      ensures maxEntriesDeletedInOneBatch < 1 ==>
                && r == Failure(IllegalArgumentException(BATCH_SIZE_MESSAGE))
                && repository.server.store == old(repository.server.store)
                && repository.server.log == old(repository.server.log)
      ensures maxEntriesDeletedInOneBatch >= 1 ==> EvictedById(id, repository.maxEntriesDeletedInOneBatch, r)
    {
      if maxEntriesDeletedInOneBatch < 1 {
        return Failure(IllegalArgumentException(BATCH_SIZE_MESSAGE));
      }
      r := EvictRegion(id);
    }

    /**
     * evictRegion(id, maxEntriesDeletedInOneBatch) as its documentation describes it: the
     * requested batch size, checked to be at least 1, is the one the batches use.
     */
    method EvictRegionInBatches(id: Option<string>, maxEntriesDeletedInOneBatch: int) returns (r: Result<int, FrontendError>)
      requires Valid()
      modifies repository.server, repository.deleteCommand
      ensures Valid()
      ensures maxEntriesDeletedInOneBatch < 1 ==>
                && r == Failure(IllegalArgumentException(BATCH_SIZE_MESSAGE))
                && repository.server.store == old(repository.server.store)
                && repository.server.log == old(repository.server.log)
      ensures maxEntriesDeletedInOneBatch >= 1 ==> EvictedById(id, maxEntriesDeletedInOneBatch, r)
    {
      if maxEntriesDeletedInOneBatch < 1 {
        return Failure(IllegalArgumentException(BATCH_SIZE_MESSAGE));
      }
      var region := ResolveRegion(id);
      if region.Failure? {
        return Failure(region.error);
      }
      var removed := repository.EvictRegion(region.value, maxEntriesDeletedInOneBatch);
      if removed.Failure? {
        return Failure(RepositoryFailure(removed.error));
      }
      return Success(removed.value);
    }

    /** getDefaultMaxEntriesDeletedInOneBatch: the batch size evictRegion(id) uses. */
    function GetDefaultMaxEntriesDeletedInOneBatch(): (n: int)
      ensures n == repository.maxEntriesDeletedInOneBatch
    {
      repository.maxEntriesDeletedInOneBatch
    }
  }

  /**
   * The input that shows the as-written batch size is ignored: with the repository's batch
   * size at 1000, a successful request for batches of 15 sends the limit "1000", not "15".
   */
  method RequestedBatchSizeIsIgnored(frontend: Frontend, id: Option<string>) returns (r: Result<int, FrontendError>)
    requires frontend.Valid() && frontend.repository.maxEntriesDeletedInOneBatch == 1000
    modifies frontend.repository.server, frontend.repository.deleteCommand
    ensures r.Success? ==> && frontend.repository.server.lastEvalShaLimit == Some("1000")
                           && frontend.repository.server.lastEvalShaLimit != Some(ValueOf(15))
  {
    r := frontend.EvictRegionInBatchesAsWritten(id, 15);
    SampleLimits();
  }

  /** The corrected method for the same request sends the limit "15". */
  method RequestedBatchSizeIsSent(frontend: Frontend, id: Option<string>) returns (r: Result<int, FrontendError>)
    requires frontend.Valid()
    modifies frontend.repository.server, frontend.repository.deleteCommand
    ensures r.Success? ==> frontend.repository.server.lastEvalShaLimit == Some("15")
  {
    r := frontend.EvictRegionInBatches(id, 15);
    SampleLimits();
  }

  /** The limits of the example, as String.valueOf writes them. */
  lemma SampleLimits()
    ensures ValueOf(1000) == "1000" && ValueOf(15) == "15"
  {
    ToNumberOfValueOf(1000);
    ToNumberOfValueOf(15);
  }

  /** The holder of the singleton: the static field `instance`. */
  class FrontendHolder {
    var instance: Frontend?

    constructor()
      ensures instance == null
    {
      instance := null;
    }

    /** initialize: null arguments are rejected, then a second initialization. */
    method Initialize(repository: RedisCacheRepository?, regionRepository: Option<CacheByURIRegionRepository>)
      returns (r: Result<(), FrontendError>)
      modifies this
      ensures repository == null ==> r == Failure(NullPointerException(NULL_CACHE_MESSAGE)) && instance == old(instance)
      ensures repository != null && regionRepository.None? ==>
                r == Failure(NullPointerException(NULL_REGIONS_MESSAGE)) && instance == old(instance)
      ensures repository != null && regionRepository.Some? && old(instance) != null ==>
                r == Failure(IllegalStateException(ALREADY_INITIALIZED_MESSAGE)) && instance == old(instance)
      ensures repository != null && regionRepository.Some? && old(instance) == null ==>
                && r.Success? && instance != null && fresh(instance)
                && instance.repository == repository && instance.regionRepository == regionRepository.value
      ensures r.Success? <==> repository != null && regionRepository.Some? && old(instance) == null
    {
      if repository == null {
        return Failure(NullPointerException(NULL_CACHE_MESSAGE));
      }
      if regionRepository.None? {
        return Failure(NullPointerException(NULL_REGIONS_MESSAGE));
      }
      if instance != null {
        return Failure(IllegalStateException(ALREADY_INITIALIZED_MESSAGE));
      }
      instance := new Frontend(repository, regionRepository.value);
      return Success(());
    }

    /** get: the singleton once initialized. */
    function Get(): (r: Result<Frontend, FrontendError>)
      reads this
      ensures r.Success? <==> instance != null
      ensures r.Success? ==> r.value == instance
      ensures r.Failure? ==> r.error == IllegalStateException(NOT_INITIALIZED_MESSAGE)
    {
      if instance == null then Failure(IllegalStateException(NOT_INITIALIZED_MESSAGE)) else Success(instance)
    }
  }
}
