/**
 * CacheByURIRegionRepository: resolves a request URI to the region of the first matching
 * pattern (or to PASSTHROUGH) and a region id to its region.
 */
module RegionRepository {
  import opened Wrappers
  import opened KeyStrategy
  import opened Regions

  /**
   * A URI pattern. Whether it accepts a URI is decided by the `matches` parameter of the
   * members below, which stands for URIMatcher.matches.
   */
  datatype URIMatcher = URIMatcher(pattern: string)

  /** The region used for requests that are not cached at all. */
  const PASSTHROUGH: CacheRegion :=
    CacheRegion("_passthrough", 0, None, 0, Passthrough, NamespacedURIKeyStrategy(EMPTY_NAMESPACE))

  /** PASSTHROUGH is what the five-argument constructor builds from its arguments, null unit included. */
  lemma PassthroughIsConstructed()
    ensures NewRegion("_passthrough", 0, None, Passthrough, KeyStrategyWithEmptyNamespace()) == Success(PASSTHROUGH)
    ensures PASSTHROUGH.ttl == 0 && PASSTHROUGH.ttlInSeconds == 0 && PASSTHROUGH.ttlUnit.None?
  {
  }

  datatype ConstructionError =
    | NullRegions(message: string)
    | DuplicateKey(id: string)            // Collectors.toMap's IllegalStateException

  function Values(entries: seq<(URIMatcher, CacheRegion)>): (vs: seq<CacheRegion>)
    ensures |vs| == |entries|
    ensures forall i :: 0 <= i < |entries| ==> vs[i] == entries[i].1
  {
    seq(|entries|, i requires 0 <= i < |entries| => entries[i].1)
  }

  predicate DistinctIds(vs: seq<CacheRegion>) {
    forall i, j :: 0 <= i < j < |vs| ==> vs[i].id != vs[j].id
  }

  /** The ids of a sequence of regions. */
  function Ids(vs: seq<CacheRegion>): (ids: set<string>)
    ensures forall i :: 0 <= i < |vs| ==> vs[i].id in ids
    ensures forall x :: x in ids ==> exists i :: 0 <= i < |vs| && vs[i].id == x
    decreases |vs|
  {
    if vs == [] then {} else Ids(vs[..|vs| - 1]) + {vs[|vs| - 1].id}
  }

  /**
   * The id index, built in stream order with a collector that rejects a second region with
   * an id already collected.
   */
  function IndexById(vs: seq<CacheRegion>): (r: Result<map<string, CacheRegion>, string>)
    ensures r.Success? ==> r.value.Keys == Ids(vs)
    ensures r.Success? ==> forall i :: 0 <= i < |vs| ==> r.value[vs[i].id] == vs[i]
    ensures r.Failure? ==> r.error in Ids(vs)
    decreases |vs|
  {
    if vs == [] then Success(map[])
    else
      var init, last := vs[..|vs| - 1], vs[|vs| - 1];
      assert vs == init + [last];
      ExtendIds(vs, init, last);
      match IndexById(init)
      case Failure(d) => Failure(d)
      case Success(m) =>
        if last.id in m then Failure(last.id)
        else
          IndexKeysStep(Ids(vs), Ids(init), last, m);
          assert forall i :: 0 <= i < |init| ==> init[i].id in m;
          ExtendIndex(vs, init, last, m);
          Success(m[last.id := last])
  }

  /** One collector step: the last region's id was not collected yet, so it joins the keys. */
  lemma IndexKeysStep(ids: set<string>, init: set<string>, last: CacheRegion, m: map<string, CacheRegion>)
    requires ids == init + {last.id} && m.Keys == init
    ensures m[last.id := last].Keys == ids
  {
  }

  /** The index of all regions but the last, with the last one added under its id. */
  lemma ExtendIndex(vs: seq<CacheRegion>, init: seq<CacheRegion>, last: CacheRegion, m: map<string, CacheRegion>)
    requires vs == init + [last] && last.id !in m
    requires forall i :: 0 <= i < |init| ==> init[i].id in m && m[init[i].id] == init[i]
    ensures forall i :: 0 <= i < |vs| ==> m[last.id := last][vs[i].id] == vs[i]
  {
    var m' := m[last.id := last];
    forall i | 0 <= i < |vs|
      ensures m'[vs[i].id] == vs[i]
    {
      if i < |init| {
        assert vs[i] == init[i];
      }
    }
  }

  lemma ExtendIds(vs: seq<CacheRegion>, init: seq<CacheRegion>, last: CacheRegion)
    requires vs == init + [last]
    ensures Ids(vs) == Ids(init) + {last.id}
  {
    assert vs[..|vs| - 1] == init;
  }

  /** The index can be built exactly when no two regions share an id. */
  lemma {:induction false} IndexByIdSucceedsIff(vs: seq<CacheRegion>)
    ensures IndexById(vs).Success? <==> DistinctIds(vs)
    decreases |vs|
  {
    if vs != [] {
      var init, last := vs[..|vs| - 1], vs[|vs| - 1];
      IndexByIdSucceedsIff(init);
      DistinctIdsSnoc(vs);
      assert IndexById(vs).Success? <==> IndexById(init).Success? && last.id !in IndexById(init).value.Keys;
    }
  }

  /** Distinct ids with one more region: distinct before, and the new id not among them. */
  lemma DistinctIdsSnoc(vs: seq<CacheRegion>)
    requires vs != []
    ensures DistinctIds(vs) <==> DistinctIds(vs[..|vs| - 1]) && vs[|vs| - 1].id !in Ids(vs[..|vs| - 1])
  {
    var init, last := vs[..|vs| - 1], vs[|vs| - 1];
    assert forall i :: 0 <= i < |init| ==> vs[i] == init[i];
    if DistinctIds(vs) {
      assert DistinctIds(init);
    }
  }


  /** The repository: the pattern/region pairs in match-priority order, and the id index. */
  datatype CacheByURIRegionRepository = CacheByURIRegionRepository(
    regions: seq<(URIMatcher, CacheRegion)>,
    regionsById: map<string, CacheRegion>)
  {
    /** The id index lists exactly the configured regions, each under its own id. */
    predicate Valid() {
      IndexById(Values(regions)) == Success(regionsById)
    }

    /** The region registered under an id, if any. */
    function GetById(id: string): (r: Option<CacheRegion>)
      requires Valid()
      ensures r.Some? <==> exists i :: 0 <= i < |regions| && regions[i].1.id == id
      ensures r.Some? ==> r.value.id == id && exists i :: 0 <= i < |regions| && regions[i].1 == r.value
    {
      var vs := Values(regions);
      if id in regionsById then
        var i :| 0 <= i < |vs| && vs[i].id == id;
        Some(regionsById[id])
      else
        None
    }

    /** The region of a request URI: that of the first pattern accepting it, else PASSTHROUGH. */
    function Getfor(uri: string, matches: (URIMatcher, string) -> bool): (r: CacheRegion)
      ensures (exists i :: 0 <= i < |regions| && matches(regions[i].0, uri)) ==>
                exists i :: && 0 <= i < |regions| && matches(regions[i].0, uri) && r == regions[i].1
                            && forall j :: 0 <= j < i ==> !matches(regions[j].0, uri)
      ensures (forall i :: 0 <= i < |regions| ==> !matches(regions[i].0, uri)) ==> r == PASSTHROUGH
    {
      match FirstMatch(regions, uri, matches)
      case Some(i) => regions[i].1
      case None => PASSTHROUGH
    }
  }

  /** The index of the first pattern, in iteration order, that accepts the URI. */
  function FirstMatch(entries: seq<(URIMatcher, CacheRegion)>, uri: string, matches: (URIMatcher, string) -> bool): (r: Option<nat>)
    ensures r.Some? ==> && r.value < |entries| && matches(entries[r.value].0, uri)
                        && forall j :: 0 <= j < r.value ==> !matches(entries[j].0, uri)
    ensures r.None? ==> forall j :: 0 <= j < |entries| ==> !matches(entries[j].0, uri)
    decreases |entries|
  {
    if entries == [] then None
    else if matches(entries[0].0, uri) then Some(0)
    else
      match FirstMatch(entries[1..], uri, matches)
      case None => None
      case Some(i) => Some(i + 1)
  }

  /** The constructor: null is rejected, and so is a second region with an id already indexed. */
  function New(regions: Option<seq<(URIMatcher, CacheRegion)>>): (r: Result<CacheByURIRegionRepository, ConstructionError>)
    ensures regions.None? ==> r == Failure(NullRegions("List of cache regions should not be null"))
    ensures regions.Some? ==> (r.Success? <==> DistinctIds(Values(regions.value)))
    ensures r.Success? ==> r.value.Valid() && r.value.regions == regions.value
  {
    match regions
    case None => Failure(NullRegions("List of cache regions should not be null"))
    case Some(rs) =>
      IndexByIdSucceedsIff(Values(rs));
      match IndexById(Values(rs))
      case Failure(d) => Failure(DuplicateKey(d))
      case Success(m) => Success(CacheByURIRegionRepository(rs, m))
  }

  /** With no regions configured every URI is served uncached. */
  lemma EmptyRepositoryPassesEverythingThrough(uri: string, matches: (URIMatcher, string) -> bool)
    ensures New(Some([])).Success?
    ensures New(Some([])).value.Getfor(uri, matches) == PASSTHROUGH
    ensures forall id :: New(Some([])).value.GetById(id).None?
  {
  }

  /** A region resolved for a URI is either PASSTHROUGH or a configured region whose pattern accepts it. */
  lemma ResolvedRegionAcceptsUri(repo: CacheByURIRegionRepository, uri: string, matches: (URIMatcher, string) -> bool)
    requires forall i :: 0 <= i < |repo.regions| ==> repo.regions[i].1 != PASSTHROUGH
    ensures var r := repo.Getfor(uri, matches);
            r == PASSTHROUGH <==> forall i :: 0 <= i < |repo.regions| ==> !matches(repo.regions[i].0, uri)
  {
  }

  /** Every configured region is found under its own id. */
  lemma {:induction false} GetByIdFindsEveryRegion(repo: CacheByURIRegionRepository, i: nat)
    requires repo.Valid() && i < |repo.regions|
    ensures repo.GetById(repo.regions[i].1.id) == Some(repo.regions[i].1)
  {
    assert Values(repo.regions)[i] == repo.regions[i].1;
  }
}
