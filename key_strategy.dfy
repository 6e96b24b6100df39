/**
 * NamespacedURIKeyStrategy: storage keys `namespace:regionId:uri` and the per-region
 * eviction wildcard `namespace:regionId:*`.
 */
module KeyStrategy {
  import opened Wrappers
  import opened JavaStrings
  import JavaNumbers

  const EMPTY_NAMESPACE: string := ""

  /** The generic name of the strategy class, whose String.hashCode is every instance's hash code. */
  const CLASS_GENERIC_STRING: string := "public class dynks.cache.NamespacedURIKeyStrategy"

  datatype NullPointerException = NullPointerException(message: string)

  /** The strategy's only state is its namespace. */
  datatype NamespacedURIKeyStrategy = NamespacedURIKeyStrategy(namespace: string)
  {
    /**
     * The wildcard addressing all keys of a region. Only the region's id is read
     * from the region, so it is the argument here.
     */
    function WildcardKeyFor(regionId: string): string {
      namespace + [':'] + regionId + ":*"
    }

    /** The storage key of a request URI in a region (the request is read only for its URI). */
    function KeyFor(uri: string, regionId: string): string {
      namespace + [':'] + regionId + [':'] + uri
    }

    /** equals: every instance equals every other, whatever its namespace. */
    predicate Equals(other: NamespacedURIKeyStrategy) {
      true
    }

    /** hashCode: the hash of the class's generic name, the same for every instance. */
    function HashCode(): int {
      JavaNumbers.StringHashCode(CLASS_GENERIC_STRING)
    }
  }

  /** The constructor: a null namespace is rejected. */
  function New(namespace: Option<string>): (r: Result<NamespacedURIKeyStrategy, NullPointerException>)
    ensures r.Failure? <==> namespace.None?
    ensures r.Failure? ==> r.error.message == "Namespace should not be null"
    ensures r.Success? ==> r.value.namespace == namespace.value
  {
    match namespace
    case None => Failure(NullPointerException("Namespace should not be null"))
    case Some(ns) => Success(NamespacedURIKeyStrategy(ns))
  }

  function KeyStrategyWithEmptyNamespace(): (k: NamespacedURIKeyStrategy)
    ensures New(Some(EMPTY_NAMESPACE)) == Success(k)
    ensures k.namespace == ""
  {
    NamespacedURIKeyStrategy(EMPTY_NAMESPACE)
  }

  /** The key prefix the wildcard stands for: the wildcard without its trailing `*`. */
  function WildcardPrefix(ks: NamespacedURIKeyStrategy, regionId: string): (p: string)
    ensures ks.WildcardKeyFor(regionId) == p + "*"
  {
    ks.namespace + [':'] + regionId + [':']
  }

  /** Every key built for a region starts with the region's wildcard minus its `*`. */
  lemma KeyStartsWithWildcardPrefix(ks: NamespacedURIKeyStrategy, uri: string, regionId: string)
    ensures StartsWith(ks.KeyFor(uri, regionId), WildcardPrefix(ks, regionId))
    ensures ks.KeyFor(uri, regionId) == WildcardPrefix(ks, regionId) + uri
  {
  }

  /** The index of the first colon of a string followed by a colon, for a colon-free string. */
  lemma FirstColonAfterId(id: string, rest: string)
    requires ':' !in id
    ensures (id + [':'] + rest)[|id|] == ':'
    ensures forall i :: 0 <= i < |id| ==> (id + [':'] + rest)[i] != ':'
  {
  }

  /** A colon-free id followed by a colon is determined by where the first colon is. */
  lemma {:induction false} SplitAtColonIsUnique(id1: string, rest1: string, id2: string, rest2: string)
    requires ':' !in id1 && ':' !in id2
    requires id1 + [':'] + rest1 == id2 + [':'] + rest2
    ensures id1 == id2 && rest1 == rest2
  {
    var s := id1 + [':'] + rest1;
    FirstColonAfterId(id1, rest1);
    FirstColonAfterId(id2, rest2);
    assert |id1| == |id2|;
    assert id1 == s[..|id1|] == id2;
    assert rest1 == s[|id1| + 1..] == rest2;
  }

  /**
   * For one namespace and colon-free region ids, distinct (region id, uri) pairs never share a key.
   */
  lemma KeyForIsInjective(ks: NamespacedURIKeyStrategy, uri1: string, id1: string, uri2: string, id2: string)
    requires ':' !in id1 && ':' !in id2
    requires ks.KeyFor(uri1, id1) == ks.KeyFor(uri2, id2)
    ensures id1 == id2 && uri1 == uri2
  {
    var n := |ks.namespace|;
    var k1, k2 := ks.KeyFor(uri1, id1), ks.KeyFor(uri2, id2);
    assert k1[n + 1..] == id1 + [':'] + uri1;
    assert k2[n + 1..] == id2 + [':'] + uri2;
    SplitAtColonIsUnique(id1, uri1, id2, uri2);
  }

  /**
   * In one namespace, a key of a region with a colon-free id starts with another colon-free
   * region's wildcard prefix only when the two ids are the same: eviction of one region never
   * reaches the keys of another.
   */
  lemma KeyOutsideOtherRegionWildcard(ks: NamespacedURIKeyStrategy, uri: string, id: string, other: string)
    requires ':' !in id && ':' !in other
    requires StartsWith(ks.KeyFor(uri, id), WildcardPrefix(ks, other))
    ensures id == other
  {
    var n := |ks.namespace|;
    var k := ks.KeyFor(uri, id);
    var p := WildcardPrefix(ks, other);
    assert k[n + 1..] == id + [':'] + uri;
    var rest := k[n + 1 + |other| + 1..];
    assert k[..|p|] == p;
    assert k == p + rest;
    assert k[n + 1..] == other + [':'] + rest;
    SplitAtColonIsUnique(id, uri, other, rest);
  }

  /** Two strategies always compare equal and share a hash code, whatever their namespaces. */
  lemma AllStrategiesEqual(a: NamespacedURIKeyStrategy, b: NamespacedURIKeyStrategy)
    ensures a.Equals(b) && b.Equals(a)
    ensures a.HashCode() == b.HashCode()
  {
  }
}
