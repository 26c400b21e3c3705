/**
 The failover manager of pkg/embedding/manager.go: a cache in front of several providers, which are tried
 in rotation from the one that answered last. First the object with its sequential methods, then the
 step system of any number of `Embed` calls running at once.
 */
module EmbedManager {
  import opened Wrappers
  import opened EmbedTypes
  import opened EmbedCache

  // ---------------------------------------------------------------- the rotation

  /** The first `len` providers in rotation from `start`. */
  function Rotation(start: nat, len: nat, n: nat): (r: seq<nat>)
    requires n > 0
    ensures |r| == len && forall k :: 0 <= k < len ==> r[k] == (start + k) % n < n
  {
    seq(len, k requires 0 <= k < len => (start + k) % n)
  }

  lemma RotationValue(start: nat, k: nat, n: nat)
    requires start < n && k < n
    ensures (start + k) % n == if start + k < n then start + k else start + k - n
  {
    var m := if start + k < n then start + k else start + k - n;
    var q := (start + k) / n;
    assert start + k == n * q + (start + k) % n;
    if q == 0 {
      assert n * q == 0;
    } else {
      assert n * q == n * (q - 1) + n;
    }
  }

  /** Up to `n` steps of the rotation name no provider twice. */
  lemma RotationIsDistinct(start: nat, len: nat, n: nat)
    requires start < n && len <= n
    ensures forall i, j :: 0 <= i < j < len ==> Rotation(start, len, n)[i] != Rotation(start, len, n)[j]
  {
    forall i, j | 0 <= i < j < len
      ensures Rotation(start, len, n)[i] != Rotation(start, len, n)[j]
    {
      RotationValue(start, i, n);
      RotationValue(start, j, n);
    }
  }

  /** A full rotation names every provider. */
  lemma RotationCovers(start: nat, n: nat, p: nat)
    requires start < n && p < n
    ensures p in Rotation(start, n, n)
  {
    var k := if p >= start then p - start else p + n - start;
    RotationValue(start, k, n);
    assert Rotation(start, n, n)[k] == p;
  }

  /** What asking providers in rotation from `start` comes to: they are asked in that order until one
      succeeds; the last answer counts, and only if all have failed it is a failure. */
  ghost predicate AskedInRotation(replies: seq<Reply>, start: nat, r: Reply, asked: seq<nat>) {
    && 0 < |asked| <= |replies| && asked == Rotation(start, |asked|, |replies|)
    && (forall k :: 0 <= k < |asked| - 1 ==> replies[asked[k]].Failed?)
    && var last := replies[asked[|asked| - 1]];
       if last.Embedded? then r == last
       else |asked| == |replies| && r == Reply.Failed(AllProvidersFailed(last.err))
  }

  /** The loop of `Embed`. `replies[p]` is what provider `p` answers when asked. */
  method AskProviders(replies: seq<Reply>, start: nat) returns (r: Reply, asked: seq<nat>)
    requires |replies| > 0
    ensures AskedInRotation(replies, start, r, asked)
  {
    var n := |replies|;
    asked := [];
    var lastErr := None;
    for offset := 0 to n
      invariant asked == Rotation(start, offset, n)
      invariant forall k :: 0 <= k < offset ==> replies[asked[k]].Failed?
      invariant offset > 0 ==> lastErr == Some(replies[asked[offset - 1]].err)
    {
      var i := (start + offset) % n;
      asked := asked + [i];
      if replies[i].Embedded? {
        return replies[i], asked;
      }
      lastErr := Some(replies[i].err);
    }
    r := Reply.Failed(AllProvidersFailed(lastErr.value));
  }

  // ---------------------------------------------------------------- the object

  /** The clock readings of one call: the lookup, the eviction and the expiry of what is stored. */
  datatype Times = Times(lookup: int, evict: int, store: int)

  /** What a call of `Embed` comes to: a live item is returned and nobody is asked; otherwise providers are
      asked in rotation from the current one, the one that answers becomes the current one, and its answer is
      stored. */
  ghost predicate EmbedDoes(items: Items, current: nat, maxSize: nat, ttl: int, text: string, replies: seq<Reply>,
                            t: Times, r: Reply, asked: seq<nat>, itemsAfter: Items, currentAfter: nat) {
    if text in items && !Expired(items[text], t.lookup) then
      r == Embedded(items[text].value) && asked == [] && itemsAfter == items && currentAfter == current
    else
      && AskedInRotation(replies, current, r, asked)
      && if r.Failed? then itemsAfter == items && currentAfter == current
         else currentAfter == asked[|asked| - 1]
              && Stored(items, maxSize, ttl, text, r.vector, t.evict, t.store, itemsAfter)
  }

  /** Every provider failed, and the failure reported is that of one of them. */
  ghost predicate AllFailed(replies: seq<Reply>, e: Failure) {
    && (forall p :: 0 <= p < |replies| ==> replies[p].Failed?)
    && exists p :: 0 <= p < |replies| && replies[p].Failed? && e == AllProvidersFailed(replies[p].err)
  }

  class Manager {
    const providers: nat
    const cache: Cache
    var current: nat

    ghost predicate Valid()
      reads this, cache
    {
      providers > 0 && current < providers && cache.Valid()
    }

    /** `NewManager`, with at least one provider, which the source insists on. */
    constructor (providers: nat, cache: Cache)
      requires providers > 0 && cache.Valid()
      ensures Valid() && this.providers == providers && this.cache == cache && current == 0
    {
      this.providers := providers;
      this.cache := cache;
      current := 0;
    }

    /** `currentProviderIndex`: whatever `current` holds, the result is in range where there is a provider,
        and it is `current` where that is in range. */
    method CurrentProviderIndex() returns (i: nat)
      ensures providers > 0 ==> i < providers
      ensures current < providers ==> i == current
      ensures current >= providers ==> i == 0
    {
      if providers == 0 {
        return 0;
      }
      if current >= providers {
        return 0;
      }
      i := current;
    }

    /** `CurrentProvider` reads the provider list at `current`; in a manager that `NewManager` has made and
        any calls have changed, that is in range. */
    method CurrentProvider() returns (i: Option<nat>)
      requires Valid()
      ensures i.Some? && i.value < providers && i.value == current
    {
      if providers == 0 {
        return None;
      }
      i := Some(current);
    }

    ghost predicate Hit(text: string, now: int)
      reads cache
    {
      text in cache.items && !Expired(cache.items[text], now)
    }

    /** `Embed`. `replies[p]` is what provider `p` answers to this text when asked; `asked` lists the
        providers that were asked, in order. */
    method Embed(text: string, replies: seq<Reply>, t: Times) returns (r: Reply, asked: seq<nat>)
      requires Valid() && |replies| == providers
      modifies this`current, cache`items
      ensures Valid()
      ensures EmbedDoes(old(cache.items), old(current), cache.maxSize, cache.ttl, text, replies, t, r, asked,
                        cache.items, current)
      ensures old(Hit(text, t.lookup)) ==> asked == [] && r == Embedded(old(cache.items[text].value))
      ensures !old(Hit(text, t.lookup)) ==> AskedInRotation(replies, old(current), r, asked)
      ensures if asked != [] && r.Embedded?
              then current == asked[|asked| - 1]
                   && Stored(old(cache.items), cache.maxSize, cache.ttl, text, r.vector, t.evict, t.store, cache.items)
              else current == old(current) && cache.items == old(cache.items)
    {
      var cached := cache.Get(text, t.lookup);
      if cached.Some? {
        return Embedded(cached.value), [];
      }
      var start := CurrentProviderIndex();
      r, asked := AskProviders(replies, start);
      if r.Embedded? {
        current := asked[|asked| - 1];
        cache.Set(text, r.vector, t.evict, t.store);
      }
    }

    /** Every cached value is known to belong to its key. */
    ghost predicate CacheKnows(known: set<(string, Embedding)>)
      reads this, cache
    {
      forall k :: k in cache.items ==> (k, cache.items[k].value) in known
    }

    /** `EmbedBatch`: one result per text, in order, each a value known for that very text; or the first
        failure. `replies[i][p]` is what provider `p` answers to `texts[i]`. */
    method EmbedBatch(texts: seq<string>, replies: seq<seq<Reply>>, times: seq<Times>, ghost known: set<(string, Embedding)>)
      returns (r: Result<seq<Embedding>, Failure>)
      requires Valid() && |replies| == |times| == |texts| && CacheKnows(known)
      requires forall i :: 0 <= i < |texts| ==> |replies[i]| == providers
      requires forall i, p :: 0 <= i < |texts| && 0 <= p < providers && replies[i][p].Embedded? ==>
                 (texts[i], replies[i][p].vector) in known
      modifies this`current, cache`items
      ensures Valid() && CacheKnows(known)
      ensures r.Ok? ==> |r.value| == |texts| && forall i :: 0 <= i < |texts| ==> (texts[i], r.value[i]) in known
      ensures r.Err? ==> exists i :: 0 <= i < |texts| && AllFailed(replies[i], r.error)
    {
      var results: seq<Embedding> := [];
      for i := 0 to |texts|
        invariant Valid() && CacheKnows(known)
        invariant |results| == i && forall j :: 0 <= j < i ==> (texts[j], results[j]) in known
      {
        var answer, asked := EmbedKnown(texts[i], replies[i], times[i], known);
        if answer.Failed? {
          return Err(answer.err);
        }
        results := results + [answer.vector];
      }
      r := Ok(results);
    }

    /** `Embed` with the knowledge carried along. */
    method EmbedKnown(text: string, replies: seq<Reply>, t: Times, ghost known: set<(string, Embedding)>)
      returns (r: Reply, asked: seq<nat>)
      requires Valid() && |replies| == providers && CacheKnows(known)
      requires forall p :: 0 <= p < providers && replies[p].Embedded? ==> (text, replies[p].vector) in known
      modifies this`current, cache`items
      ensures Valid() && CacheKnows(known)
      ensures r.Embedded? ==> (text, r.vector) in known
      ensures r.Failed? ==> AllFailed(replies, r.err)
    {
      r, asked := Embed(text, replies, t);
      if asked != [] && r.Embedded? {
        StoringKeepsBound(old(cache.items), cache.maxSize, cache.ttl, text, r.vector, t.evict, t.store, cache.items);
      }
      if r.Failed? {
        forall p | 0 <= p < providers
          ensures replies[p].Failed?
        {
          RotationCovers(old(current), providers, p);
          var k :| 0 <= k < |asked| && asked[k] == p;
        }
      }
    }
  }
}
