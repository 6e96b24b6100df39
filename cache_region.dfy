/** CacheRegion: the immutable caching policy of a class of requests. */
module Regions {
  import opened Wrappers
  import opened JavaNumbers
  import opened KeyStrategy

  /** java.util.concurrent.TimeUnit. */
  datatype TimeUnit = Nanoseconds | Microseconds | Milliseconds | Seconds | Minutes | Hours | Days

  /** TimeUnit.toSeconds: finer units divide (truncating), coarser units multiply and saturate. */
  function ToSeconds(unit: TimeUnit, d: int): int {
    match unit
    case Nanoseconds => JavaDiv(d, 1_000_000_000)
    case Microseconds => JavaDiv(d, 1_000_000)
    case Milliseconds => JavaDiv(d, 1_000)
    case Seconds => d
    case Minutes => Saturated(d, 60)
    case Hours => Saturated(d, 3_600)
    case Days => Saturated(d, 86_400)
  }

  /** TimeUnit's overflow-checked multiplication: Long.MAX_VALUE / Long.MIN_VALUE past the bound. */
  function Saturated(d: int, m: int): int
    requires m > 0
  {
    var over := LONG_MAX / m;
    if d > over then LONG_MAX else if d < -over then LONG_MIN else d * m
  }

  datatype Cacheability = Cached | Passthrough

  /**
   * A region. `ttlInSeconds` is computed once by the constructors, as in the source;
   * `ttlUnit` is None where the source holds null.
   */
  datatype CacheRegion = CacheRegion(
    id: string,
    ttl: int,
    ttlUnit: Option<TimeUnit>,
    ttlInSeconds: int,
    cacheability: Cacheability,
    keyStrategy: NamespacedURIKeyStrategy)

  /**
   * The values for which the constructors' `(int)` cast of the seconds does not overflow:
   * a long ttl whose seconds fit an int (or is not converted at all).
   */
  predicate TtlFits(ttl: int, ttlUnit: Option<TimeUnit>) {
    IsLong(ttl) && (ttl > 0 && ttlUnit.Some? ==> ToSeconds(ttlUnit.value, ttl) <= INT_MAX)
  }

  /** The constructors' rule for the seconds: the unit is consulted only for a positive ttl. */
  function TtlInSeconds(ttl: int, ttlUnit: Option<TimeUnit>): (r: Result<int, NullPointerException>)
    requires TtlFits(ttl, ttlUnit)
    ensures r.Failure? <==> ttl > 0 && ttlUnit.None?
    ensures ttl <= 0 ==> r == Success(0)
    ensures ttl > 0 && ttlUnit.Some? ==> r == Success(ToSeconds(ttlUnit.value, ttl))
    ensures r.Success? ==> 0 <= r.value <= INT_MAX
  {
    if ttl > 0 then
      match ttlUnit
      case None => Failure(NullPointerException("ttlUnit"))
      case Some(u) => Success(ToSeconds(u, ttl))
    else Success(0)
  }

  /** The five-argument constructor. A null unit with a positive ttl throws NullPointerException. */
  function NewRegion(id: string, ttl: int, ttlUnit: Option<TimeUnit>, cacheability: Cacheability,
                     keyStrategy: NamespacedURIKeyStrategy): (r: Result<CacheRegion, NullPointerException>)
    requires TtlFits(ttl, ttlUnit)
    ensures r.Failure? <==> ttl > 0 && ttlUnit.None?
    ensures r.Success? ==> WellFormed(r.value)
    ensures r.Success? ==> r.value.id == id && r.value.ttl == ttl && r.value.ttlUnit == ttlUnit
                           && r.value.cacheability == cacheability && r.value.keyStrategy == keyStrategy
  {
    match TtlInSeconds(ttl, ttlUnit)
    case Failure(e) => Failure(e)
    case Success(s) => Success(CacheRegion(id, ttl, ttlUnit, s, cacheability, keyStrategy))
  }

  /** The four-argument constructor: always a CACHED region. */
  function NewCachedRegion(id: string, ttl: int, ttlUnit: Option<TimeUnit>,
                           keyStrategy: NamespacedURIKeyStrategy): (r: Result<CacheRegion, NullPointerException>)
    requires TtlFits(ttl, ttlUnit)
    ensures r == NewRegion(id, ttl, ttlUnit, Cached, keyStrategy)
    ensures r.Success? ==> r.value.cacheability == Cached
  {
    match TtlInSeconds(ttl, ttlUnit)
    case Failure(e) => Failure(e)
    case Success(s) => Success(CacheRegion(id, ttl, ttlUnit, s, Cached, keyStrategy))
  }

  /** What the constructors guarantee of every region they build. */
  predicate WellFormed(r: CacheRegion) {
    && TtlFits(r.ttl, r.ttlUnit)
    && TtlInSeconds(r.ttl, r.ttlUnit) == Success(r.ttlInSeconds)
  }

  /**
   * equals: id, ttl, unit and cacheability are compared; the key-strategy term compares
   * this region's strategy with itself.
   */
  predicate Equals(a: CacheRegion, b: CacheRegion) {
    && a.id == b.id
    && a.ttl == b.ttl
    && a.ttlUnit == b.ttlUnit
    && a.cacheability == b.cacheability
    && a.keyStrategy.Equals(a.keyStrategy)
  }

  /** The part of a region that equals distinguishes. */
  datatype RegionKey = RegionKey(id: string, ttl: int, ttlUnit: Option<TimeUnit>, cacheability: Cacheability)

  function KeyOf(r: CacheRegion): RegionKey {
    RegionKey(r.id, r.ttl, r.ttlUnit, r.cacheability)
  }

  /** Two constructed regions are equal exactly when they agree on everything but the key strategy. */
  lemma EqualsIffSameButKeyStrategy(a: CacheRegion, b: CacheRegion)
    requires WellFormed(a) && WellFormed(b)
    ensures Equals(a, b) <==> a == b.(keyStrategy := a.keyStrategy)
    ensures Equals(a, b) <==> KeyOf(a) == KeyOf(b)
  {
  }

  /** In particular, regions in different namespaces are equal when nothing else differs. */
  lemma EqualsIgnoresNamespace(r: CacheRegion, ns1: string, ns2: string)
    ensures Equals(r.(keyStrategy := NamespacedURIKeyStrategy(ns1)), r.(keyStrategy := NamespacedURIKeyStrategy(ns2)))
  {
  }
}
