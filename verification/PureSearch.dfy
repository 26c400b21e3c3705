/**
 The search of pkg/api/server.go over vectors that come with the request: score, filter, sort, cut off.
 Distances and the rounding of scores are parameters; all that matters of the rounding is its order.
 */
module PureSearch {
  import opened Chunking
  import opened ExchangeSort
  import opened Wrappers

  datatype Hit = Hit(index: nat, distance: real)

  datatype SearchError = QueryRequired | VectorsRequired

  ghost predicate Monotone(round: real -> real) {
    forall x, y :: x <= y ==> round(x) <= round(y)
  }

  function ScoreOf(distance: real, round: real -> real): real {
    round(if 1.0 - distance < 0.0 then 0.0 else 1.0 - distance)
  }

  predicate Passes(distance: real, threshold: real) {
    !(threshold > 0.0 && distance > threshold)
  }

  /** The entries that pass, in the order of the vectors. */
  function Passing(distances: seq<real>, threshold: real, round: real -> real): seq<Entry<Hit>> {
    if distances == [] then [] else
      var n := |distances| - 1;
      Passing(distances[..n], threshold, round) +
      if Passes(distances[n], threshold) then [Entry(Hit(n, distances[n]), ScoreOf(distances[n], round))] else []
  }

  function Limit(limit: int, topK: int): (r: nat)
    ensures r > 0
  {
    var l := if limit <= 0 then 10 else limit;
    if topK > 0 && topK < l then topK else l
  }

  /** `e` is the entry of a vector that passes. */
  predicate IsEntry(e: Entry<Hit>, distances: seq<real>, threshold: real, round: real -> real) {
    && e.value.index < |distances| && e.value.distance == distances[e.value.index]
    && Passes(e.value.distance, threshold) && e.score == ScoreOf(e.value.distance, round)
  }

  lemma {:induction false} PassingIsComplete(distances: seq<real>, threshold: real, round: real -> real)
    ensures forall e :: e in Passing(distances, threshold, round) <==> IsEntry(e, distances, threshold, round)
  {
    if distances != [] {
      PassingIsComplete(distances[..|distances| - 1], threshold, round);
    }
  }

  predicate Ascending(es: seq<Entry<Hit>>) {
    forall k, l :: 0 <= k < l < |es| ==> es[k].value.index < es[l].value.index
  }

  lemma {:induction false} PassingAscends(distances: seq<real>, threshold: real, round: real -> real)
    ensures Ascending(Passing(distances, threshold, round))
  {
    if distances != [] {
      var n := |distances| - 1;
      PassingAscends(distances[..n], threshold, round);
      PassingIsComplete(distances[..n], threshold, round);
      var es := Passing(distances[..n], threshold, round);
      assert forall k :: 0 <= k < |es| ==> es[k] in es;
    }
  }

  function Result(distances: seq<real>, limit: int, topK: int, threshold: real, round: real -> real): seq<Entry<Hit>> {
    var sorted := Sort(Passing(distances, threshold, round), 0);
    sorted[..Min(Limit(limit, topK), |sorted|)]
  }

  /** The core of `handlePureSearch`. */
  method HandlePureSearch(queryLength: nat, distances: seq<real>, limit: int, topK: int, threshold: real, round: real -> real)
    returns (r: Result<seq<Entry<Hit>>, SearchError>)
    ensures r == if queryLength == 0 then Err(QueryRequired)
                 else if distances == [] then Err(VectorsRequired)
                 else Ok(Result(distances, limit, topK, threshold, round))
  {
    if queryLength == 0 {
      return Err(QueryRequired);
    }
    if |distances| == 0 {
      return Err(VectorsRequired);
    }
    var l := limit;
    if l <= 0 {
      l := 10;
    }
    if topK > 0 && topK < l {
      l := topK;
    }
    var scored: seq<Entry<Hit>> := [];
    for i := 0 to |distances|
      invariant scored == Passing(distances[..i], threshold, round)
    {
      assert distances[..i + 1][..i] == distances[..i];
      var distance := distances[i];
      var score := 1.0 - distance;
      if score < 0.0 {
        score := 0.0;
      }
      if threshold > 0.0 && distance > threshold {
        continue;
      }
      scored := scored + [Entry(Hit(i, distance), round(score))];
    }
    assert distances[..|distances|] == distances;
    var a := new Entry<Hit>[|scored|](i requires 0 <= i < |scored| => scored[i]);
    assert a[..] == scored;
    SortByScore(a);
    var results := a[..];
    assert results[..|results|] == results;
    if |results| > l {
      results := results[..l];
    }
    r := Ok(results);
  }

  /** The results are entries of vectors that pass, one for each vector at most, best score first, and as
      many as there are or as the limit allows. */
  lemma ResultsAreRanked(distances: seq<real>, limit: int, topK: int, threshold: real, round: real -> real)
    ensures var rs := Result(distances, limit, topK, threshold, round);
            && |rs| == Min(Limit(limit, topK), |Passing(distances, threshold, round)|)
            && (forall k :: 0 <= k < |rs| ==> IsEntry(rs[k], distances, threshold, round))
            && (forall k, l :: 0 <= k < l < |rs| ==> rs[l].score <= rs[k].score && rs[k].value.index != rs[l].value.index)
  {
    hide Passing, Sort, IsEntry;
    var es := Passing(distances, threshold, round);
    var sorted := Sort(es, 0);
    SortIsDescendingPermutation(es);
    forall k | 0 <= k < |sorted|
      ensures IsEntry(sorted[k], distances, threshold, round)
    {
      SortedIsEntry(distances, threshold, round, sorted, k);
    }
    PassingAscends(distances, threshold, round);
    hide Ascending;
    forall k, l | 0 <= k < l < |sorted|
      ensures sorted[k].value.index != sorted[l].value.index
    {
      DistinctStay(es, sorted, k, l);
    }
  }

  /** No more results than the limit, ten where there is none, nor than `topK` where that is given. */
  predicate Bounded(n: nat, limit: int, topK: int) {
    n <= (if limit > 0 then limit else 10) && (topK > 0 ==> n <= topK)
  }

  /** One of these bounds is reached. */
  predicate BoundReached(n: nat, limit: int, topK: int) {
    n == (if limit > 0 then limit else 10) || (topK > 0 && n == topK)
  }

  /** Near enough for the request: where a threshold is given, nothing is farther away. */
  predicate Near(distance: real, threshold: real) {
    threshold > 0.0 ==> distance <= threshold
  }

  /** A vector's place, its distance, and as score one minus that, at least zero, rounded. */
  predicate Describes(e: Entry<Hit>, distances: seq<real>, round: real -> real) {
    && e.value.index < |distances| && e.value.distance == distances[e.value.index]
    && (e.value.distance >= 1.0 ==> e.score == round(0.0))
    && (e.value.distance <= 1.0 ==> e.score == round(1.0 - e.value.distance))
  }

  predicate Includes(rs: seq<Entry<Hit>>, i: nat) {
    exists k :: 0 <= k < |rs| && rs[k].value.index == i
  }

  /** What the request asks for and what it gets: results within the bounds, each describing a vector that is
      near enough; and one that is near enough is left out only where a bound is reached. */
  lemma ResultsMeetTheRequest(distances: seq<real>, limit: int, topK: int, threshold: real, round: real -> real)
    ensures var rs := Result(distances, limit, topK, threshold, round);
            && Bounded(|rs|, limit, topK)
            && (forall k :: 0 <= k < |rs| ==> Describes(rs[k], distances, round) && Near(rs[k].value.distance, threshold))
            && (forall i :: 0 <= i < |distances| && Near(distances[i], threshold) && !Includes(rs, i) ==>
                  BoundReached(|rs|, limit, topK))
  {
    hide Result, Passing, IsEntry, Sort, Limit;
    var rs := Result(distances, limit, topK, threshold, round);
    ResultsAreRanked(distances, limit, topK, threshold, round);
    LimitIs(limit, topK);
    forall k | 0 <= k < |rs|
      ensures Describes(rs[k], distances, round) && Near(rs[k].value.distance, threshold)
    {
      EntryMeets(rs[k], distances, threshold, round);
    }
    forall i | 0 <= i < |distances| && Near(distances[i], threshold) && !Includes(rs, i)
      ensures BoundReached(|rs|, limit, topK)
    {
      LeftOut(distances, limit, topK, threshold, round, i);
    }
  }

  lemma LimitIs(limit: int, topK: int)
    ensures Bounded(Limit(limit, topK), limit, topK) && BoundReached(Limit(limit, topK), limit, topK)
  {
  }

  lemma EntryMeets(e: Entry<Hit>, distances: seq<real>, threshold: real, round: real -> real)
    requires IsEntry(e, distances, threshold, round)
    ensures Describes(e, distances, round) && Near(e.value.distance, threshold)
  {
  }

  lemma LeftOut(distances: seq<real>, limit: int, topK: int, threshold: real, round: real -> real, i: nat)
    requires i < |distances| && Near(distances[i], threshold)
    requires !Includes(Result(distances, limit, topK, threshold, round), i)
    ensures |Result(distances, limit, topK, threshold, round)| == Limit(limit, topK)
  {
    var es, rs := Passing(distances, threshold, round), Result(distances, limit, topK, threshold, round);
    var e := Entry(Hit(i, distances[i]), ScoreOf(distances[i], round));
    assert IsEntry(e, distances, threshold, round);
    PassingIsComplete(distances, threshold, round);
    SortIsDescendingPermutation(es);
    hide Passing, IsEntry, Sort, Limit;
    assert forall k :: 0 <= k < |rs| ==> rs[k] != e;
    LeftOutMeansFull(es, Limit(limit, topK), e);
  }

  lemma LeftOutMeansFull(es: seq<Entry<Hit>>, l: nat, e: Entry<Hit>)
    requires e in es && multiset(Sort(es, 0)) == multiset(es) && |Sort(es, 0)| == |es|
    requires forall k :: 0 <= k < Min(l, |es|) ==> Sort(es, 0)[k] != e
    ensures |es| > l
  {
    hide Sort;
    var sorted := Sort(es, 0);
    assert e in multiset(sorted);
    assert e in sorted;
    var k :| 0 <= k < |sorted| && sorted[k] == e;
  }

  lemma SortedIsEntry(distances: seq<real>, threshold: real, round: real -> real, sorted: seq<Entry<Hit>>, k: nat)
    requires multiset(sorted) == multiset(Passing(distances, threshold, round)) && k < |sorted|
    ensures IsEntry(sorted[k], distances, threshold, round)
  {
    hide Passing, IsEntry;
    PassingIsComplete(distances, threshold, round);
    assert sorted[k] in multiset(sorted);
  }

  lemma DistinctStay(es: seq<Entry<Hit>>, sorted: seq<Entry<Hit>>, k: nat, l: nat)
    requires Ascending(es) && multiset(es) == multiset(sorted) && k < l < |sorted|
    ensures sorted[k].value.index != sorted[l].value.index
  {
    var x, y := sorted[k], sorted[l];
    assert x in multiset(es) && y in multiset(es);
    if x == y {
      Twice(sorted, k, l);
      Once(es, x);
      assert false;
    }
  }

  lemma Twice<T>(s: seq<T>, k: nat, l: nat)
    requires k < l < |s| && s[k] == s[l]
    ensures multiset(s)[s[k]] >= 2
  {
    assert s == s[..k] + [s[k]] + s[k + 1..l] + [s[l]] + s[l + 1..];
  }

  lemma {:induction false} Once(es: seq<Entry<Hit>>, x: Entry<Hit>)
    requires Ascending(es)
    ensures multiset(es)[x] <= 1
  {
    if es != [] {
      var n := |es| - 1;
      assert es == es[..n] + [es[n]];
      Once(es[..n], x);
      if x == es[n] {
        assert x !in es[..n];
      }
    }
  }

  lemma CloserIsNoWorse(d: real, e: real, round: real -> real)
    requires Monotone(round) && d <= e
    ensures ScoreOf(e, round) <= ScoreOf(d, round)
  {
    var x, y := if 1.0 - e < 0.0 then 0.0 else 1.0 - e, if 1.0 - d < 0.0 then 0.0 else 1.0 - d;
    assert x <= y && round(x) <= round(y);
  }

  /** No vector that passes and is left out scores higher than one that is kept; where it is closer to the
      query all the same, the rounding has given the two the same score. */
  lemma NothingBetterLeftOut(distances: seq<real>, limit: int, topK: int, threshold: real, round: real -> real,
                             e: Entry<Hit>, kept: Entry<Hit>)
    requires IsEntry(e, distances, threshold, round)
    requires e !in Result(distances, limit, topK, threshold, round)
    requires kept in Result(distances, limit, topK, threshold, round)
    ensures e.score <= kept.score
    ensures Monotone(round) && e.value.distance < kept.value.distance ==> e.score == kept.score
  {
    var es := Passing(distances, threshold, round);
    var sorted, rs := Sort(es, 0), Result(distances, limit, topK, threshold, round);
    SortIsDescendingPermutation(es);
    PassingIsComplete(distances, threshold, round);
    assert e in multiset(es) && e in multiset(sorted);
    var k :| 0 <= k < |sorted| && sorted[k] == e;
    var l :| 0 <= l < |rs| && rs[l] == kept;
    assert sorted[l] == kept;
    assert kept in multiset(sorted) && kept in multiset(es);
    assert IsEntry(kept, distances, threshold, round);
    if Monotone(round) && e.value.distance < kept.value.distance {
      CloserIsNoWorse(e.value.distance, kept.value.distance, round);
    }
  }
}
