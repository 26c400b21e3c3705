/**
 The bounded, expiring cache of pkg/embedding/manager.go. Eviction walks a Go map, whose order is
 arbitrary, and stops in the middle; so what it leaves is a relation, not a function.
 */
module EmbedCache {
  import opened Wrappers
  import opened EmbedTypes

  datatype Item = Item(value: Embedding, expiresAt: int)

  type Items = map<string, Item>

  predicate Expired(item: Item, now: int) {
    now > item.expiresAt
  }

  function Live(items: Items, now: int): Items {
    map k | k in items && !Expired(items[k], now) :: items[k]
  }

  ghost predicate SubMap(a: Items, b: Items) {
    forall k :: k in a ==> k in b && a[k] == b[k]
  }

  /** How many live items eviction removes when no expired one made room: half the capacity, but at least one. */
  function Batch(maxSize: nat): nat {
    if maxSize / 2 == 0 then 1 else maxSize / 2
  }

  /** What eviction may leave: the live items if that makes room, and otherwise all but a batch of them. */
  ghost predicate Evicted(before: Items, maxSize: nat, now: int, after: Items) {
    var live := Live(before, now);
    if |live| < maxSize then after == live else SubMap(after, live) && |after| + Batch(maxSize) == |live|
  }

  /** What is left when a full cache has made room; a cache that is not full is left alone. */
  ghost predicate MadeRoom(before: Items, maxSize: nat, evictedAt: int, kept: Items) {
    if |before| < maxSize then kept == before else Evicted(before, maxSize, evictedAt, kept)
  }

  /** What storing a value may leave; the clock is read once while evicting and once for the expiry. */
  ghost predicate Stored(before: Items, maxSize: nat, ttl: int, key: string, value: Embedding,
                         evictedAt: int, now: int, after: Items) {
    exists kept: Items :: MadeRoom(before, maxSize, evictedAt, kept) && after == kept[key := Item(value, now + ttl)]
  }

  /** Dropping keys cannot make a map larger. */
  lemma LiveIsSmaller(items: Items, now: int)
    ensures |Live(items, now)| <= |items|
  {
    SubsetSize(Live(items, now).Keys, items.Keys);
    assert |Live(items, now)| == |Live(items, now).Keys| && |items| == |items.Keys|;
  }

  lemma {:induction false} SubsetSize<T>(a: set<T>, b: set<T>)
    requires a <= b
    ensures |a| <= |b|
  {
    if a != {} {
      var x :| x in a;
      SubsetSize(a - {x}, b - {x});
    }
  }

  /** Eviction of a cache within its bound always makes room, whatever the capacity and the order. */
  lemma EvictionMakesRoom(before: Items, maxSize: nat, now: int, after: Items)
    requires maxSize > 0 && |before| <= maxSize && Evicted(before, maxSize, now, after)
    ensures |after| < maxSize && SubMap(after, before)
  {
    LiveIsSmaller(before, now);
  }

  lemma {:induction false} DropSome(items: Items, n: nat) returns (rest: Items)
    requires n <= |items|
    ensures SubMap(rest, items) && |rest| + n == |items|
  {
    rest := items;
    if n > 0 {
      var k :| k in items;
      assert |items - {k}| == |(items - {k}).Keys| && (items - {k}).Keys == items.Keys - {k};
      rest := DropSome(items - {k}, n - 1);
    }
  }

  /** Room can always be made. */
  lemma CanMakeRoom(before: Items, maxSize: nat, now: int) returns (kept: Items)
    requires maxSize > 0 && |before| <= maxSize
    ensures MadeRoom(before, maxSize, now, kept)
  {
    var live := Live(before, now);
    if |before| < maxSize {
      kept := before;
    } else if |live| < maxSize {
      kept := live;
    } else {
      kept := DropSome(live, Batch(maxSize));
    }
  }

  /** Storing keeps the bound; the stored key expires after the lifetime; every other item was there before,
      and was not expired if anything had to be evicted. */
  lemma StoringKeepsBound(before: Items, maxSize: nat, ttl: int, key: string, value: Embedding,
                          evictedAt: int, now: int, after: Items)
    requires maxSize > 0 && |before| <= maxSize && Stored(before, maxSize, ttl, key, value, evictedAt, now, after)
    ensures |after| <= maxSize
    ensures key in after && after[key] == Item(value, now + ttl)
    ensures forall k :: k in after && k != key ==> k in before && after[k] == before[k]
    ensures |before| == maxSize ==> forall k :: k in after && k != key ==> !Expired(after[k], evictedAt)
  {
    var kept: Items :| MadeRoom(before, maxSize, evictedAt, kept) && after == kept[key := Item(value, now + ttl)];
    if |before| >= maxSize {
      EvictionMakesRoom(before, maxSize, evictedAt, kept);
    }
    assert after.Keys == kept.Keys + {key};
    assert |after| == |after.Keys| && |kept| == |kept.Keys|;
  }

  /** The keys of what is past its time. */
  function ExpiredKeys(items: Items, now: int): set<string> {
    set k | k in items && now > items[k].expiresAt
  }

  /** Making room in a full cache: what has expired goes, and nothing else, if there is any such item; otherwise
      half of the items go, rounded down, or the only one. */
  ghost predicate MakesRoom(before: Items, now: int, kept: Items) {
    var expired := ExpiredKeys(before, now);
    && SubMap(kept, before)
    && if expired != {} then kept.Keys == before.Keys - expired
       else |before| - |kept| == if |before| == 1 then 1 else |before| / 2
  }

  lemma EvictionMakesRoomSo(before: Items, maxSize: nat, now: int, kept: Items)
    requires 0 < maxSize == |before| && Evicted(before, maxSize, now, kept)
    ensures MakesRoom(before, now, kept)
  {
    LiveCounts(before, now);
    hide Live, ExpiredKeys;
  }

  lemma LiveCounts(items: Items, now: int)
    ensures var live, expired := Live(items, now), ExpiredKeys(items, now);
            && SubMap(live, items) && live.Keys == items.Keys - expired
            && if expired == {} then live == items else |live| < |items|
  {
    var live, expired := Live(items, now), ExpiredKeys(items, now);
    assert live.Keys == items.Keys - expired;
    assert |live| == |live.Keys| && |items| == |items.Keys|;
    if expired != {} {
      var k :| k in expired;
      SubsetSize(live.Keys, items.Keys - {k});
    }
  }

  /** What storing leaves: the item under its key, found until one lifetime has passed, and besides it everything
      that was there or, if the cache was full, what is left after making room. */
  lemma WhatStoringLeaves(before: Items, maxSize: nat, ttl: int, key: string, value: Embedding,
                          evictedAt: int, now: int, after: Items) returns (kept: Items)
    requires maxSize > 0 && |before| <= maxSize && Stored(before, maxSize, ttl, key, value, evictedAt, now, after)
    ensures if |before| < maxSize then kept == before else MakesRoom(before, evictedAt, kept)
    ensures key in after && after == kept[key := after[key]] && after[key].value == value
    ensures forall t :: Expired(after[key], t) <==> t > now + ttl
  {
    kept :| MadeRoom(before, maxSize, evictedAt, kept) && after == kept[key := Item(value, now + ttl)];
    hide Evicted;
    if |before| == maxSize {
      EvictionMakesRoomSo(before, maxSize, evictedAt, kept);
    }
  }

  class Cache {
    var items: Items
    const maxSize: nat
    const ttl: int

    ghost predicate Valid()
      reads this
    {
      maxSize > 0 && ttl > 0 && |items| <= maxSize
    }

    /** `NewCache`: non-positive settings become the defaults. */
    constructor (maxSize0: int, ttl0: int)
      ensures Valid() && items == map[]
      ensures maxSize == if maxSize0 <= 0 then 10000 else maxSize0
      ensures ttl == if ttl0 <= 0 then 86400000000000 else ttl0
    {
      maxSize := if maxSize0 <= 0 then 10000 else maxSize0;
      ttl := if ttl0 <= 0 then 86400000000000 else ttl0;
      items := map[];
    }

    /** `Get`: an item is found until its expiry, that moment included. */
    method Get(key: string, now: int) returns (r: Option<Embedding>)
      ensures r == if key in items && !Expired(items[key], now) then Some(items[key].value) else None
    {
      if key !in items {
        return None;
      }
      if now > items[key].expiresAt {
        return None;
      }
      r := Some(items[key].value);
    }

    /** The first loop of `evict`: expired items go, in whatever order the map yields its keys. */
    method DropExpired(now: int)
      modifies this`items
      ensures items == Live(old(items), now)
    {
      var todo := items.Keys;
      while todo != {}
        invariant todo <= old(items).Keys
        invariant items == map k | k in old(items) && (k in todo || !Expired(old(items)[k], now)) :: old(items)[k]
        decreases |todo|
      {
        var k :| k in todo;
        todo := todo - {k};
        if now > items[k].expiresAt {
          items := items - {k};
        }
      }
    }

    /** The second loop of `evict`: items go, in whatever order, until half the capacity has gone. */
    method DropHalf()
      requires maxSize > 0 && |items| >= maxSize
      modifies this`items
      ensures SubMap(items, old(items)) && |items| + Batch(maxSize) == |old(items)|
    {
      var count := 0;
      var half := maxSize / 2;
      var todo := items.Keys;
      while todo != {}
        invariant todo == items.Keys && SubMap(items, old(items))
        invariant |items| + count == |old(items)|
        invariant count == 0 || count < half
        decreases |todo|
      {
        var k :| k in todo;
        todo := todo - {k};
        assert |items.Keys - {k}| == |items.Keys| - 1;
        items := items - {k};
        count := count + 1;
        if count >= half {
          break;
        }
      }
    }

    /** `evict`. */
    method Evict(now: int)
      requires maxSize > 0
      modifies this`items
      ensures Evicted(old(items), maxSize, now, items)
    {
      DropExpired(now);
      if |items| >= maxSize {
        DropHalf();
      }
    }

    /** `Set`. */
    method Set(key: string, value: Embedding, evictedAt: int, now: int)
      requires Valid()
      modifies this`items
      ensures Valid()
      ensures Stored(old(items), maxSize, ttl, key, value, evictedAt, now, items)
    {
      if |items| >= maxSize {
        Evict(evictedAt);
      }
      ghost var kept := items;
      items := items[key := Item(value, now + ttl)];
      assert MadeRoom(old(items), maxSize, evictedAt, kept);
      StoringKeepsBound(old(items), maxSize, ttl, key, value, evictedAt, now, items);
    }
  }
}
