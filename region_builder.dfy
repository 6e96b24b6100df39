/**
 * ResponseCacheByURIBuilder.build: validates the configured region ids in list order and
 * builds the region repository.
 */
module RegionBuilder {
  import opened Wrappers
  import opened JavaStrings
  import opened KeyStrategy
  import opened Regions
  import opened RegionConfigs
  import opened RegionRepository

  datatype BuildError =
    | IllegalArgumentException(message: string)
    | ConfigMissing(path: string)               // the configuration library's ConfigException.Missing

  const MISSING_ID_MESSAGE: string := "Region id should be provided"
  const BLANK_ID_MESSAGE: string := "Region id should not be empty"
  const UNDERSCORE_ID_MESSAGE: string := "Region id should not start with underscore"

  function DuplicateIdMessage(id: string): string {
    "Regions should have unique names but found duplicated region with name '" + id + "'"
  }

  function ColonIdMessage(id: string): string {
    "Region id should not contain colon but found in '" + id + "'"
  }

  /** The ids of the regions configured before position i. */
  function IdsBefore(cs: seq<RegionConfig>, i: nat): set<string>
    requires i <= |cs|
  {
    set j | 0 <= j < i && cs[j].id.Some? :: cs[j].id.value
  }

  /**
   * The checks made of one configured region, in the order the builder makes them, given the
   * ids accepted before it: missing id, duplicate, colon, blank, leading underscore, then the
   * ttl and pattern paths the builder reads.
   */
  function CheckRegion(c: RegionConfig, seen: set<string>): (e: Option<BuildError>)
    ensures e.None? <==> c.id.Some? && c.ttl.Some? && c.pattern.Some? && ValidId(c.id.value) && c.id.value !in seen
  {
    if c.id.None? then Some(IllegalArgumentException(MISSING_ID_MESSAGE))
    else if c.id.value in seen then Some(IllegalArgumentException(DuplicateIdMessage(c.id.value)))
    else if ':' in c.id.value then Some(IllegalArgumentException(ColonIdMessage(c.id.value)))
    else if Trim(c.id.value) == [] then Some(IllegalArgumentException(BLANK_ID_MESSAGE))
    else if StartsWith(Trim(c.id.value), "_") then Some(IllegalArgumentException(UNDERSCORE_ID_MESSAGE))
    else if c.ttl.None? then Some(ConfigMissing("ttl"))
    else if c.pattern.None? then Some(ConfigMissing("pattern"))
    else None
  }

  /** What the builder accepts as an id. */
  predicate ValidId(id: string) {
    ':' !in id && Trim(id) != [] && !StartsWith(Trim(id), "_")
  }

  /** The ttl of every configured region must fit the region constructor's int seconds. */
  predicate TtlsFit(cs: seq<RegionConfig>) {
    forall i :: 0 <= i < |cs| && cs[i].ttl.Some? ==> TtlFits(ToMillis(cs[i].ttl.value), Some(Milliseconds))
  }

  /** The entry the builder puts in the repository for an accepted region. */
  function BuiltEntry(ks: NamespacedURIKeyStrategy, c: RegionConfig): (e: (URIMatcher, CacheRegion))
    requires c.id.Some? && c.ttl.Some? && c.pattern.Some?
    requires TtlFits(ToMillis(c.ttl.value), Some(Milliseconds))
    ensures e.0 == URIMatcher(c.pattern.value)
    ensures NewCachedRegion(c.id.value, ToMillis(c.ttl.value), Some(Milliseconds), ks) == Success(e.1)
    ensures WellFormed(e.1) && e.1.cacheability == Cached && e.1.ttlUnit == Some(Milliseconds)
    ensures e.1.id == c.id.value && e.1.ttl == ToMillis(c.ttl.value) && e.1.keyStrategy == ks
  {
    (URIMatcher(c.pattern.value), NewCachedRegion(c.id.value, ToMillis(c.ttl.value), Some(Milliseconds), ks).value)
  }

  /** Every region before position i passed its checks. */
  predicate AcceptedUpTo(cs: seq<RegionConfig>, i: nat)
    requires i <= |cs|
  {
    forall j :: 0 <= j < i ==> CheckRegion(cs[j], IdsBefore(cs, j)).None?
  }

  /**
   * The body of the builder's loop for one configured region: the checks in the builder's
   * order, given the ids accepted so far, then the region built from the entry.
   */
  method AcceptRegion(keyStrategy: NamespacedURIKeyStrategy, region: RegionConfig, regionIds: set<string>)
    returns (r: Result<(URIMatcher, CacheRegion), BuildError>)
    requires region.ttl.Some? ==> TtlFits(ToMillis(region.ttl.value), Some(Milliseconds))
    ensures r.Failure? <==> CheckRegion(region, regionIds).Some?
    ensures r.Failure? ==> CheckRegion(region, regionIds) == Some(r.error)
    ensures r.Success? ==> r.value == BuiltEntry(keyStrategy, region)
  {
    if region.id.None? {
      return Failure(IllegalArgumentException(MISSING_ID_MESSAGE));
    }
    var id := region.id.value;
    if id in regionIds {
      return Failure(IllegalArgumentException(DuplicateIdMessage(id)));
    }
    if ':' in id {
      return Failure(IllegalArgumentException(ColonIdMessage(id)));
    }
    if Trim(id) == [] {
      return Failure(IllegalArgumentException(BLANK_ID_MESSAGE));
    }
    if StartsWith(Trim(id), "_") {
      return Failure(IllegalArgumentException(UNDERSCORE_ID_MESSAGE));
    }
    if region.ttl.None? {
      return Failure(ConfigMissing("ttl"));
    }
    var cached := NewCachedRegion(id, ToMillis(region.ttl.value), Some(Milliseconds), keyStrategy);
    if region.pattern.None? {
      return Failure(ConfigMissing("pattern"));
    }
    return Success((URIMatcher(region.pattern.value), cached.value));
  }

  /**
   * Builds the repository. Regions are checked in list order; the first failing check aborts
   * the build with its error. The repository keeps the regions in configuration order.
   */
  method Build(namespace: string, configured: seq<RegionConfig>) returns (r: Result<CacheByURIRegionRepository, BuildError>)
    requires TtlsFit(configured)
    ensures r.Failure? <==> exists i :: 0 <= i < |configured| && CheckRegion(configured[i], IdsBefore(configured, i)).Some?
    ensures r.Failure? ==> exists i :: && 0 <= i < |configured| && AcceptedUpTo(configured, i)
                                       && CheckRegion(configured[i], IdsBefore(configured, i)) == Some(r.error)
    ensures r.Success? ==> && r.value.Valid()
                           && |r.value.regions| == |configured|
                           && forall i :: 0 <= i < |configured| ==>
                                && ValidId(configured[i].id.value)
                                && r.value.regions[i] == BuiltEntry(NamespacedURIKeyStrategy(namespace), configured[i])
    ensures r.Success? ==> DistinctIds(Values(r.value.regions))
  {
    var keyStrategy := NamespacedURIKeyStrategy(namespace);
    var regions: seq<(URIMatcher, CacheRegion)> := [];
    var regionIds: set<string> := {};
    var i := 0;
    while i < |configured|
      invariant 0 <= i <= |configured|
      invariant regionIds == IdsBefore(configured, i)
      invariant AcceptedUpTo(configured, i)
      invariant BuiltUpTo(configured, keyStrategy, regions, i)
    {
      var accepted := AcceptRegion(keyStrategy, configured[i], regionIds);
      if accepted.Failure? {
        r := Failure(accepted.error);
        FirstFailure(configured, i, r.error);
        return;
      }
      AcceptStep(configured, i, keyStrategy, regions, accepted.value);
      regions := regions + [accepted.value];
      regionIds := regionIds + {configured[i].id.value};
      i := i + 1;
    }
    AllAccepted(configured, keyStrategy, regions);
    AcceptedIdsAreDistinct(configured, keyStrategy, regions);
    var built := RegionRepository.New(Some(regions));
    r := Success(built.value);
  }

  /** The entries built for the first i configured regions, all of which passed their checks. */
  predicate BuiltUpTo(cs: seq<RegionConfig>, ks: NamespacedURIKeyStrategy, regions: seq<(URIMatcher, CacheRegion)>, i: nat)
    requires i <= |cs| && TtlsFit(cs) && AcceptedUpTo(cs, i)
  {
    |regions| == i && forall j :: 0 <= j < i ==> regions[j] == BuiltEntry(ks, cs[j])
  }

  /** Accepting region i extends the accepted prefix, its entries and its ids by one. */
  lemma AcceptStep(cs: seq<RegionConfig>, i: nat, ks: NamespacedURIKeyStrategy,
                   regions: seq<(URIMatcher, CacheRegion)>, entry: (URIMatcher, CacheRegion))
    requires i < |cs| && TtlsFit(cs) && AcceptedUpTo(cs, i) && BuiltUpTo(cs, ks, regions, i)
    requires CheckRegion(cs[i], IdsBefore(cs, i)).None? && entry == BuiltEntry(ks, cs[i])
    ensures AcceptedUpTo(cs, i + 1) && BuiltUpTo(cs, ks, regions + [entry], i + 1)
    ensures IdsBefore(cs, i + 1) == IdsBefore(cs, i) + {cs[i].id.value}
  {
    assert IdsBefore(cs, i + 1) == IdsBefore(cs, i) + {cs[i].id.value};
    forall j | 0 <= j < i + 1 ensures CheckRegion(cs[j], IdsBefore(cs, j)).None? {
    }
    var regions' := regions + [entry];
    forall j | 0 <= j < i + 1 ensures regions'[j] == BuiltEntry(ks, cs[j]) {
      if j < i {
        assert regions'[j] == regions[j];
      }
    }
  }

  /** A configuration whose every region passed: no check fails, and every id is valid. */
  lemma AllAccepted(cs: seq<RegionConfig>, ks: NamespacedURIKeyStrategy, regions: seq<(URIMatcher, CacheRegion)>)
    requires TtlsFit(cs) && AcceptedUpTo(cs, |cs|) && BuiltUpTo(cs, ks, regions, |cs|)
    ensures !exists i :: 0 <= i < |cs| && CheckRegion(cs[i], IdsBefore(cs, i)).Some?
    ensures forall i :: 0 <= i < |cs| ==> ValidId(cs[i].id.value) && regions[i] == BuiltEntry(ks, cs[i])
  {
  }

  /** A check failing at i, after every earlier region passed, is the first failure. */
  lemma FirstFailure(cs: seq<RegionConfig>, i: nat, e: BuildError)
    requires i < |cs| && AcceptedUpTo(cs, i) && CheckRegion(cs[i], IdsBefore(cs, i)) == Some(e)
    ensures exists j :: 0 <= j < |cs| && CheckRegion(cs[j], IdsBefore(cs, j)).Some?
    ensures exists j :: 0 <= j < |cs| && AcceptedUpTo(cs, j) && CheckRegion(cs[j], IdsBefore(cs, j)) == Some(e)
  {
  }

  /** The ids of an accepted configuration are pairwise distinct. */
  lemma AcceptedIdsAreDistinct(cs: seq<RegionConfig>, ks: NamespacedURIKeyStrategy, regions: seq<(URIMatcher, CacheRegion)>)
    requires TtlsFit(cs) && AcceptedUpTo(cs, |cs|)
    requires |regions| == |cs| && forall j :: 0 <= j < |cs| ==> regions[j] == BuiltEntry(ks, cs[j])
    ensures DistinctIds(Values(regions))
  {
    var vs := Values(regions);
    forall j, k | 0 <= j < k < |vs| ensures vs[j].id != vs[k].id {
      assert CheckRegion(cs[k], IdsBefore(cs, k)).None?;
      assert cs[j].id.value in IdsBefore(cs, k);
    }
  }
}
