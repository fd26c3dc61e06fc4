/**
 * The subtype relation cache: a bounded least-recently-used map from an
 * ordered pair of type identities to a subtype verdict, with cumulative hit
 * and miss counters.
 */
module TypeRelations {

  import opened Wrappers
  import opened Sequences

  /** A type's identity, stable for one checking session. */
  type TypeId = nat

  /** (source, target): the order matters, since subtyping is not symmetric. */
  type Key = (TypeId, TypeId)

  const DefaultCapacity: nat := 1024

  /** A fraction num / den standing for a rate in [0, 1]; the rates built here all have den > 0. */
  datatype Ratio = Ratio(num: nat, den: nat)

  /** hits / (hits + misses), and 0 when there has been no lookup. */
  function HitRatio(hits: nat, misses: nat): (r: Ratio)
    ensures r.den > 0 && r.num <= r.den
    ensures hits + misses == 0 ==> r.num == 0
    ensures hits + misses > 0 ==> r.num * (hits + misses) == hits * r.den
  {
    if hits + misses == 0 then Ratio(0, 1) else Ratio(hits, hits + misses)
  }

  /** One hit and two misses give one third. */
  lemma OneHitTwoMisses()
    ensures HitRatio(1, 2).num * 3 == HitRatio(1, 2).den
  {
  }

  /** `order` with `k` moved to the most recently used end. */
  function Touch(order: seq<Key>, k: Key): (r: seq<Key>)
    requires NoDuplicates(order)
    ensures NoDuplicates(r) && |r| > 0 && r[|r| - 1] == k
    ensures forall x :: x in r <==> x in order || x == k
    ensures k in order ==> |r| == |order|
    ensures k !in order ==> r == order + [k]
    ensures r[..|r| - 1] == Without(order, k)
  {
    var rest := Without(order, k);
    assert forall x :: x in rest <==> x in order && x != k by {
      forall x ensures x in rest <==> x in order && x != k {
        if x in order && x != k {
          var i :| 0 <= i < |order| && order[i] == x;
        }
      }
    }
    rest + [k]
  }

  /**
   * Touching `k` makes it the most recently used key and keeps the relative
   * order of every other key, so the key at the front stays the least
   * recently used one.
   */
  lemma TouchKeepsOrder(order: seq<Key>, k: Key, x: Key, y: Key)
    requires NoDuplicates(order)
    requires x in order && y in order && x != k && y != k
    requires FirstIndex(order, x) < FirstIndex(order, y)
    ensures x in Touch(order, k) && y in Touch(order, k)
    ensures FirstIndex(Touch(order, k), x) < FirstIndex(Touch(order, k), y) < FirstIndex(Touch(order, k), k)
  {
    var r := Touch(order, k);
    var rest := Without(order, k);
    assert r == rest + [k];
    assert x in rest && y in rest;
    SubsequenceOrder(rest, order, x, y);
    FirstIndexConcat(rest, [k], x);
    FirstIndexConcat(rest, [k], y);
    assert k !in rest;
    assert FirstIndex(r, k) == |rest|;
  }

  /** The recency list and the stored entries describe the same keys, each once. */
  ghost predicate Tracks(cache: map<Key, bool>, recency: seq<Key>) {
    && NoDuplicates(recency)
    && (forall k :: k in recency <==> k in cache)
    && |recency| == |cache|
  }

  /** Dropping the least recently used key from both keeps them in step. */
  lemma EvictOldest(cache: map<Key, bool>, recency: seq<Key>)
    requires Tracks(cache, recency) && |recency| > 0
    ensures Tracks(cache - {recency[0]}, recency[1..])
    ensures recency[0] in cache && |cache - {recency[0]}| == |cache| - 1
  {
    var victim := recency[0];
    assert victim in cache;
    assert victim !in recency[1..];
    assert (cache - {victim}).Keys == cache.Keys - {victim};
  }

  /** Storing a key and moving it to the most recent end keeps both in step. */
  lemma StoreKey(cache: map<Key, bool>, recency: seq<Key>, k: Key, v: bool)
    requires Tracks(cache, recency)
    ensures Tracks(cache[k := v], Touch(recency, k))
    ensures |cache[k := v]| == if k in cache then |cache| else |cache| + 1
  {
    var r := Touch(recency, k);
  }

  class TypeRelationCache {
    /** The stored verdicts. */
    var cache: map<Key, bool>
    /** The stored keys, least recently used first. */
    var recency: seq<Key>
    const capacity: nat
    var hitCount: nat
    var missCount: nat

    /** The recency list holds each stored key once, and no more keys are stored than the capacity. */
    ghost predicate Valid()
      reads this
    {
      && capacity > 0
      && Tracks(cache, recency)
      && |cache| <= capacity
    }

    /** An empty cache with the default capacity of 1024 entries. */
    constructor ()
      ensures Valid() && capacity == DefaultCapacity
      ensures cache == map[] && recency == [] && hitCount == 0 && missCount == 0
    {
      capacity := DefaultCapacity;
      cache := map[];
      recency := [];
      hitCount, missCount := 0, 0;
    }

    /** An empty cache holding at most `capacity` entries; a zero capacity is refused by the source. */
    constructor WithCapacity(capacity: nat)
      requires capacity > 0
      ensures Valid() && this.capacity == capacity
      ensures cache == map[] && recency == [] && hitCount == 0 && missCount == 0
    {
      this.capacity := capacity;
      cache := map[];
      recency := [];
      hitCount, missCount := 0, 0;
    }

    /** The lookups that found a verdict; with the misses it fixes the hit rate. */
    function HitCount(): (r: nat)
      reads this
      ensures HitRate() == HitRatio(r, missCount)
    {
      hitCount
    }

    /** The lookups that found nothing; with the hits it fixes the hit rate. */
    function MissCount(): (r: nat)
      reads this
      ensures HitRate() == HitRatio(hitCount, r)
    {
      missCount
    }

    /** The rate of hits among all lookups so far, as an exact fraction. */
    function HitRate(): (r: Ratio)
      reads this
      ensures r.num <= r.den
      ensures r.den > 0
      ensures hitCount + missCount == 0 ==> r.num == 0
      ensures hitCount + missCount > 0 ==> r.num * (hitCount + missCount) == hitCount * r.den
    {
      HitRatio(hitCount, missCount)
    }

    /**
     * Looks up the verdict for (source, target). A stored pair is a hit: its
     * verdict is returned and it becomes the most recently used. An absent
     * pair is a miss. Exactly one of the two counters goes up by one.
     */
    method Get(source: TypeId, target: TypeId) returns (r: Option<bool>)
      requires Valid()
      modifies this
      ensures Valid() && cache == old(cache)
      ensures HitCount() + MissCount() == old(HitCount() + MissCount()) + 1
      ensures old((source, target) in cache) ==>
        && r == Some(old(cache[(source, target)]))
        && hitCount == old(hitCount) + 1 && missCount == old(missCount)
        && recency == Touch(old(recency), (source, target))
      ensures old((source, target) !in cache) ==>
        && r == None
        && hitCount == old(hitCount) && missCount == old(missCount) + 1
        && recency == old(recency)
    {
      var key := (source, target);
      if key in cache {
        r := Some(cache[key]);
        recency := Touch(recency, key);
        hitCount := hitCount + 1;
      } else {
        r := None;
        missCount := missCount + 1;
      }
    }

    /**
     * Stores `verdict` for (source, target) as the most recently used entry.
     * A stored pair is overwritten; a new pair in a full cache first evicts
     * the least recently used entry, and only that one.
     */
    method Insert(source: TypeId, target: TypeId, verdict: bool)
      requires Valid()
      modifies this
      ensures Valid()
      ensures hitCount == old(hitCount) && missCount == old(missCount)
      ensures (source, target) in cache && cache[(source, target)] == verdict
      ensures recency == Touch(if old((source, target) !in cache && |cache| == capacity) then old(recency[1..]) else old(recency), (source, target))
      ensures old((source, target) in cache || |cache| < capacity) ==>
        cache == old(cache)[(source, target) := verdict]
      ensures old((source, target) !in cache && |cache| == capacity) ==>
        cache == (old(cache) - {old(recency[0])})[(source, target) := verdict]
    {
      var key := (source, target);
      if key !in cache && |cache| == capacity {
        EvictOldest(cache, recency);
        cache := cache - {recency[0]};
        recency := recency[1..];
      }
      StoreKey(cache, recency, key, verdict);
      cache := cache[key := verdict];
      recency := Touch(recency, key);
    }

    /** Drops every entry; the hit and miss counters are kept. */
    method Clear()
      requires Valid()
      modifies this
      ensures Valid()
      ensures cache == map[] && recency == []
      ensures hitCount == old(hitCount) && missCount == old(missCount)
    {
      cache := map[];
      recency := [];
    }
  }

  /** The cache tests of the source, replayed against the contracts above. */
  method TestCacheBasicOperations() {
    var cache := new TypeRelationCache();
    var number, str, boolean := 0, 1, 2;
    var r := cache.Get(number, str);
    assert r == None && cache.HitCount() == 0 && cache.MissCount() == 1;
    cache.Insert(number, str, true);
    r := cache.Get(number, str);
    assert r == Some(true) && cache.HitCount() == 1 && cache.MissCount() == 1;
    r := cache.Get(number, boolean);
    assert r == None && cache.HitCount() == 1 && cache.MissCount() == 2;
    assert cache.HitRate() == Ratio(1, 3);
  }

  method TestCacheSymmetric() {
    var cache := new TypeRelationCache();
    var number, str := 0, 1;
    cache.Insert(number, str, true);
    cache.Insert(str, number, false);
    var r := cache.Get(number, str);
    assert r == Some(true);
    r := cache.Get(str, number);
    assert r == Some(false);
  }

  method TestCacheClear() {
    var cache := new TypeRelationCache();
    var number, str := 0, 1;
    cache.Insert(number, str, true);
    var r := cache.Get(number, str);
    assert r == Some(true);
    cache.Clear();
    r := cache.Get(number, str);
    assert r == None && cache.HitCount() == 1 && cache.MissCount() == 1;
  }

  /** With room for one entry, a second pair evicts the first. */
  method TestEviction() {
    var cache := new TypeRelationCache.WithCapacity(1);
    cache.Insert(0, 1, true);
    cache.Insert(1, 0, false);
    var r := cache.Get(0, 1);
    assert r == None;
    r := cache.Get(1, 0);
    assert r == Some(false);
  }
}
