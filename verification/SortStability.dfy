/**
 When the exchange sort keeps equal scores in their order. A pass takes the first element higher than `v`
 to the front; the first of the elements that score `v` before it, if there are any, goes to its place, past
 the others. So every higher element turns the elements of score `v` before it around by one, and they are
 back in order exactly if between each of them and the next, the number of higher ones is a multiple of how
 many there are up to there.
 */
module SortStability {
  import opened ExchangeSort

  /** The elements with score `v`, in order. */
  function OfScore<T>(a: seq<Entry<T>>, v: real): seq<Entry<T>> {
    if a == [] then []
    else if a[0].score == v then [a[0]] + OfScore(a[1..], v)
    else OfScore(a[1..], v)
  }

  /** How many elements with a higher score than `v` have exactly `d` elements with score `v` before them;
      `e` counts those before the list. */
  function Above<T>(a: seq<Entry<T>>, v: real, e: nat, d: nat): nat {
    if a == [] then 0
    else if a[0].score > v then (if e == d then 1 else 0) + Above(a[1..], v, e, d)
    else Above(a[1..], v, if a[0].score == v then e + 1 else e, d)
  }

  /** The condition: between the element number `d` with some score and the next one with that score, the
      number of higher ones is a multiple of `d`. */
  ghost predicate Balanced<T>(a: seq<Entry<T>>) {
    forall v, d: nat :: d > 0 ==> Above(a, v, 0, d) % d == 0
  }

  // ---------------------------------------------------------------- the sort on lists

  /** A pass over the rest `s` with `c` in hand: what it ends with, and what it leaves behind. */
  function PassList<T>(c: Entry<T>, s: seq<Entry<T>>): (r: (Entry<T>, seq<Entry<T>>))
    ensures |r.1| == |s|
    decreases |s|
  {
    if s == [] then (c, [])
    else if s[0].score > c.score then
      var r := PassList(s[0], s[1..]);
      (r.0, [c] + r.1)
    else
      var r := PassList(c, s[1..]);
      (r.0, [s[0]] + r.1)
  }

  function SortList<T>(s: seq<Entry<T>>): (r: seq<Entry<T>>)
    ensures |r| == |s|
    decreases |s|
  {
    if s == [] then [] else
      var r := PassList(s[0], s[1..]);
      [r.0] + SortList(r.1)
  }

  lemma PassStep<T>(c: Entry<T>, x: Entry<T>, s: seq<Entry<T>>)
    ensures var r := PassList(if x.score > c.score then x else c, s);
            PassList(c, [x] + s) == (r.0, [if x.score > c.score then c else x] + r.1)
  {
    assert ([x] + s)[1..] == s;
  }

  lemma SwapElsewhere<T>(a: seq<Entry<T>>, i: nat, j: nat)
    requires i < j < |a|
    ensures var b := Swap(a, i, j);
            |b| == |a| && b[i] == a[j] && b[j] == a[i] && b[j + 1..] == a[j + 1..] && forall k :: 0 <= k < j && k != i ==> b[k] == a[k]
  {
  }

  ghost predicate IsPass<T>(a: seq<Entry<T>>, i: nat, j: nat, p: seq<Entry<T>>, r: (Entry<T>, seq<Entry<T>>))
    requires i < j <= |a|
  {
    && |p| == |a| && |r.1| == |a| - j && p[i] == r.0
    && (forall k :: 0 <= k < j && k != i ==> p[k] == a[k])
    && (forall k :: j <= k < |a| ==> p[k] == r.1[k - j])
  }

  lemma OneStepMore<T>(a: seq<Entry<T>>, b: seq<Entry<T>>, i: nat, j: nat, p: seq<Entry<T>>,
                       q: (Entry<T>, seq<Entry<T>>), l: Entry<T>)
    requires i < j < |a| == |b| && b[j] == l && forall k :: 0 <= k < j && k != i ==> b[k] == a[k]
    requires IsPass(b, i, j + 1, p, q)
    ensures IsPass(a, i, j, p, (q.0, [l] + q.1))
  {
    assert p[j] == b[j];
  }

  lemma PassOnNothing<T>(a: seq<Entry<T>>, i: nat)
    requires i < |a|
    ensures IsPass(a, i, |a|, a, PassList(a[i], a[|a|..]))
  {
    assert a[|a|..] == [];
  }

  lemma {:induction false} PassOnLists<T>(a: seq<Entry<T>>, i: nat, j: nat)
    requires i < j <= |a|
    ensures IsPass(a, i, j, Pass(a, i, j), PassList(a[i], a[j..]))
    decreases |a| - j
  {
    hide Pass, PassList, IsPass, Swap;
    PassAgain(a, i, j);
    if j == |a| {
      PassOnNothing(a, i);
    } else {
      assert a[j..] == [a[j]] + a[j + 1..];
      PassStep(a[i], a[j], a[j + 1..]);
      if a[j].score > a[i].score {
        var b := Swap(a, i, j);
        SwapElsewhere(a, i, j);
        PassOnLists(b, i, j + 1);
        OneStepMore(a, b, i, j, Pass(b, i, j + 1), PassList(b[i], b[j + 1..]), a[i]);
      } else {
        PassOnLists(a, i, j + 1);
        OneStepMore(a, a, i, j, Pass(a, i, j + 1), PassList(a[i], a[j + 1..]), a[j]);
      }
    }
  }

  lemma {:induction false} SortOnLists<T>(a: seq<Entry<T>>, i: nat)
    requires i <= |a|
    ensures Sort(a, i)[i..] == SortList(a[i..])
    decreases |a| - i
  {
    if i == |a| {
      assert Sort(a, i)[i..] == [];
    } else {
      var s := a[i..];
      var r := PassList(s[0], s[1..]);
      var b := Pass(a, i, i + 1);
      assert SortList(s) == [r.0] + SortList(r.1) && Sort(a, i) == Sort(b, i + 1);
      hide Sort, SortList, Pass, PassList;
      PassBehind(a, i);
      SortOnLists(b, i + 1);
      SortPlaces(b, i);
    }
  }

  lemma PassBehind<T>(a: seq<Entry<T>>, i: nat)
    requires i < |a|
    ensures var b, r := Pass(a, i, i + 1), PassList(a[i..][0], a[i..][1..]);
            b[i] == r.0 && b[i + 1..] == r.1
  {
    hide Pass, PassList;
    PassOnLists(a, i, i + 1);
    assert a[i..][1..] == a[i + 1..];
  }

  lemma SortPlaces<T>(b: seq<Entry<T>>, i: nat)
    requires i < |b|
    ensures Sort(b, i + 1)[i..] == [b[i]] + Sort(b, i + 1)[i + 1..]
  {
    hide Sort;
    SortKeepsFront(b, i + 1);
    assert Sort(b, i + 1)[i] == Sort(b, i + 1)[..i + 1][i] == b[..i + 1][i];
  }

  lemma SortIsList<T>(a: seq<Entry<T>>)
    ensures Sort(a, 0) == SortList(a)
  {
    SortOnLists(a, 0);
    assert a[0..] == a && Sort(a, 0)[0..] == Sort(a, 0);
  }

  // ---------------------------------------------------------------- what a pass does to one score

  /** For each element higher than `v`, how many elements of score `v` come before it; `e` more count. */
  function Depths<T>(s: seq<Entry<T>>, v: real, e: nat): (ds: seq<nat>)
    ensures forall k :: 0 <= k < |ds| ==> e <= ds[k] <= e + |OfScore(s, v)|
    ensures forall k, l :: 0 <= k < l < |ds| ==> ds[k] <= ds[l]
  {
    if s == [] then []
    else if s[0].score > v then [e] + Depths(s[1..], v, e)
    else Depths(s[1..], v, if s[0].score == v then e + 1 else e)
  }

  /** The first of the first `d` goes behind the others of them. */
  function Turn<T>(f: seq<T>, d: nat): (r: seq<T>)
    requires d <= |f|
    ensures |r| == |f|
  {
    if d == 0 then f else f[1..d] + [f[0]] + f[d..]
  }

  lemma OfScoreFront<T>(x: Entry<T>, t: seq<Entry<T>>, v: real)
    ensures OfScore([x] + t, v) == if x.score == v then [x] + OfScore(t, v) else OfScore(t, v)
  {
    assert ([x] + t)[1..] == t;
  }

  lemma DepthsFront<T>(x: Entry<T>, t: seq<Entry<T>>, v: real, e: nat)
    ensures Depths([x] + t, v, e) ==
            if x.score > v then [e] + Depths(t, v, e) else Depths(t, v, if x.score == v then e + 1 else e)
  {
    assert ([x] + t)[1..] == t;
  }

  lemma {:induction false} DepthsShift<T>(s: seq<Entry<T>>, v: real, e: nat)
    ensures |Depths(s, v, e + 1)| == |Depths(s, v, e)|
    ensures forall k :: 0 <= k < |Depths(s, v, e)| ==> Depths(s, v, e + 1)[k] == Depths(s, v, e)[k] + 1
  {
    if s != [] {
      DepthsShift(s[1..], v, if s[0].score == v then e + 1 else e);
    }
  }

  /** With something higher in hand, nothing of score `v` moves. */
  lemma {:induction false} PassHigher<T>(c: Entry<T>, s: seq<Entry<T>>, v: real, e: nat)
    requires c.score > v
    ensures var r := PassList(c, s);
            r.0.score > v && OfScore(r.1, v) == OfScore(s, v) && Depths(r.1, v, e) == Depths(s, v, e)
    decreases |s|
  {
    if s != [] {
      hide PassList, OfScore, Depths;
      var x, t := s[0], s[1..];
      var h, l := if x.score > c.score then x else c, if x.score > c.score then c else x;
      assert s == [x] + t;
      PassHigher(h, t, v, if x.score == v then e + 1 else e);
      PassStep(c, x, t);
      OfScoreFront(x, t, v);
      DepthsFront(x, t, v, e);
      OfScoreFront(l, PassList(h, t).1, v);
      DepthsFront(l, PassList(h, t).1, v, e);
    }
  }

  /** What a pass with an element of score `v` in hand does: it is put down where the first higher one was. */
  ghost predicate PutsDown<T>(c: Entry<T>, s: seq<Entry<T>>, v: real, e: nat) {
    var r, ds, f := PassList(c, s), Depths(s, v, 0), OfScore(s, v);
    if ds == [] then r == (c, s)
    else
      && r.0.score > v && OfScore(r.1, v) == f[..ds[0]] + [c] + f[ds[0]..]
      && Depths(s, v, e + 1) != [] && Depths(r.1, v, e) == Depths(s, v, e + 1)[1..]
  }

  /** Splitting behind the first element, or not. */
  lemma SplitShift<X>(x: X, f: seq<X>, d: nat, c: X)
    requires d <= |f|
    ensures ([x] + f)[..d + 1] + [c] + ([x] + f)[d + 1..] == [x] + (f[..d] + [c] + f[d..])
    ensures Turn([x] + f, d + 1) == f[..d] + [x] + f[d..]
  {
    assert ([x] + f)[1..d + 1] == f[..d];
  }

  lemma PutDownLater<T>(c: Entry<T>, x: Entry<T>, t: seq<Entry<T>>, v: real, e: nat)
    requires c.score == v && x.score <= v && PutsDown(c, t, v, if x.score == v then e + 1 else e)
    ensures PutsDown(c, [x] + t, v, e)
  {
    hide PassList, OfScore, Depths, Turn;
    PassStep(c, x, t);
    OfScoreFront(x, t, v);
    DepthsFront(x, t, v, 0);
    DepthsFront(x, t, v, e + 1);
    var q, ds, f := PassList(c, t), Depths(t, v, 0), OfScore(t, v);
    DepthsShift(t, v, 0);
    OfScoreFront(x, q.1, v);
    DepthsFront(x, q.1, v, e);
    if ds != [] && x.score == v {
      SplitShift(x, f, ds[0], c);
    }
  }

  lemma PutDownNow<T>(c: Entry<T>, x: Entry<T>, t: seq<Entry<T>>, v: real, e: nat)
    requires c.score == v && x.score > v
    ensures PutsDown(c, [x] + t, v, e)
  {
    hide PassList, OfScore, Depths;
    PassStep(c, x, t);
    OfScoreFront(x, t, v);
    DepthsFront(x, t, v, 0);
    DepthsFront(x, t, v, e + 1);
    PassHigher(x, t, v, e + 1);
    OfScoreFront(c, PassList(x, t).1, v);
    DepthsFront(c, PassList(x, t).1, v, e);
    var f := OfScore(t, v);
    assert f[..0] + [c] + f[0..] == [c] + f;
  }

  lemma {:induction false} PassEqual<T>(c: Entry<T>, s: seq<Entry<T>>, v: real, e: nat)
    requires c.score == v
    ensures PutsDown(c, s, v, e)
    decreases |s|
  {
    if s == [] {
      assert PassList(c, []) == (c, []);
    } else {
      hide PassList, OfScore, Depths, PutsDown;
      var x, t := s[0], s[1..];
      assert s == [x] + t;
      if x.score > v {
        PutDownNow(c, x, t, v, e);
      } else {
        PassEqual(c, t, v, if x.score == v then e + 1 else e);
        PutDownLater(c, x, t, v, e);
      }
    }
  }

  /** What a pass does to the elements of score `v` in a list that it leaves as `r`: nothing where none is
      higher; otherwise something higher comes to the front, the elements before the first higher one turn
      by one, and the other higher ones stay where they are. */
  ghost predicate Turned<T>(f: seq<Entry<T>>, ds: seq<nat>, r: (Entry<T>, seq<Entry<T>>), v: real) {
    if ds == [] then r.0.score <= v && OfScore([r.0] + r.1, v) == f && Depths(r.1, v, 0) == []
    else ds[0] <= |f| && r.0.score > v && OfScore(r.1, v) == Turn(f, ds[0]) && Depths(r.1, v, 0) == ds[1..]
  }

  lemma LowerMeetsHigher<T>(c: Entry<T>, x: Entry<T>, t: seq<Entry<T>>, v: real)
    requires c.score < v < x.score
    ensures Turned(OfScore([x] + t, v), Depths([x] + t, v, 0), PassList(c, [x] + t), v)
  {
    hide PassList, OfScore, Depths;
    PassStep(c, x, t);
    OfScoreFront(x, t, v);
    DepthsFront(x, t, v, 0);
    PassHigher(x, t, v, 0);
    OfScoreFront(c, PassList(x, t).1, v);
    DepthsFront(c, PassList(x, t).1, v, 0);
  }

  lemma LowerMeetsEqual<T>(c: Entry<T>, x: Entry<T>, t: seq<Entry<T>>, v: real)
    requires c.score < v == x.score
    ensures Turned(OfScore([x] + t, v), Depths([x] + t, v, 0), PassList(c, [x] + t), v)
  {
    hide PassList, OfScore, Depths, Turn;
    var q, f, ds := PassList(x, t), OfScore(t, v), Depths(t, v, 0);
    PassStep(c, x, t);
    OfScoreFront(x, t, v);
    DepthsFront(x, t, v, 0);
    PassEqual(x, t, v, 0);
    DepthsShift(t, v, 0);
    OfScoreFront(c, q.1, v);
    DepthsFront(c, q.1, v, 0);
    if ds == [] {
      OfScoreFront(x, [c] + q.1, v);
    } else {
      SplitShift(x, f, ds[0], c);
    }
  }

  lemma LowerMeetsLower<T>(c: Entry<T>, x: Entry<T>, t: seq<Entry<T>>, v: real)
    requires c.score < v && x.score < v
    requires Turned(OfScore(t, v), Depths(t, v, 0), PassList(if x.score > c.score then x else c, t), v)
    ensures Turned(OfScore([x] + t, v), Depths([x] + t, v, 0), PassList(c, [x] + t), v)
  {
    hide PassList, OfScore, Depths, Turn;
    var h, l := if x.score > c.score then x else c, if x.score > c.score then c else x;
    var q := PassList(h, t);
    PassStep(c, x, t);
    OfScoreFront(x, t, v);
    DepthsFront(x, t, v, 0);
    OfScoreFront(l, q.1, v);
    DepthsFront(l, q.1, v, 0);
    OfScoreFront(q.0, [l] + q.1, v);
    OfScoreFront(q.0, q.1, v);
  }

  lemma {:induction false} PassLower<T>(c: Entry<T>, s: seq<Entry<T>>, v: real)
    requires c.score < v
    ensures Turned(OfScore(s, v), Depths(s, v, 0), PassList(c, s), v)
    decreases |s|
  {
    if s == [] {
      assert PassList(c, []) == (c, []);
      OfScoreFront(c, [], v);
    } else {
      hide PassList, OfScore, Depths, Turned;
      var x, t := s[0], s[1..];
      assert s == [x] + t;
      if x.score > v {
        LowerMeetsHigher(c, x, t, v);
      } else if x.score == v {
        LowerMeetsEqual(c, x, t, v);
      } else {
        PassLower(if x.score > c.score then x else c, t, v);
        LowerMeetsLower(c, x, t, v);
      }
    }
  }

  lemma TurnNothing<X>(f: seq<X>)
    ensures Turn(f, 0) == f
  {
  }

  lemma HigherTurns<T>(c: Entry<T>, t: seq<Entry<T>>, v: real)
    requires c.score > v
    ensures Turned(OfScore([c] + t, v), Depths([c] + t, v, 0), PassList(c, t), v)
  {
    hide PassList, OfScore, Depths, Turn;
    OfScoreFront(c, t, v);
    DepthsFront(c, t, v, 0);
    PassHigher(c, t, v, 0);
    TurnNothing(OfScore(t, v));
  }

  lemma EqualTurns<T>(c: Entry<T>, t: seq<Entry<T>>, v: real)
    requires c.score == v
    ensures Turned(OfScore([c] + t, v), Depths([c] + t, v, 0), PassList(c, t), v)
  {
    hide PassList, OfScore, Depths, Turn;
    var f, ds := OfScore(t, v), Depths(t, v, 0);
    OfScoreFront(c, t, v);
    DepthsFront(c, t, v, 0);
    PassEqual(c, t, v, 0);
    DepthsShift(t, v, 0);
    if ds != [] {
      SplitShift(c, f, ds[0], c);
    }
  }

  lemma PassTurns<T>(s: seq<Entry<T>>, v: real)
    requires s != []
    ensures Turned(OfScore(s, v), Depths(s, v, 0), PassList(s[0], s[1..]), v)
  {
    hide PassList, OfScore, Depths, Turned;
    var c, t := s[0], s[1..];
    assert s == [c] + t;
    if c.score > v {
      HigherTurns(c, t, v);
    } else if c.score == v {
      EqualTurns(c, t, v);
    } else {
      OfScoreFront(c, t, v);
      DepthsFront(c, t, v, 0);
      PassLower(c, t, v);
    }
  }

  // ---------------------------------------------------------------- what the sort does to one score

  ghost predicate Depth(ds: seq<nat>, n: nat) {
    && (forall k :: 0 <= k < |ds| ==> ds[k] <= n)
    && (forall k, l :: 0 <= k < l < |ds| ==> ds[k] <= ds[l])
  }

  function TurnAll<X>(f: seq<X>, ds: seq<nat>): (r: seq<X>)
    requires forall k :: 0 <= k < |ds| ==> ds[k] <= |f|
    ensures |r| == |f|
    decreases |ds|
  {
    if ds == [] then f else TurnAll(Turn(f, ds[0]), ds[1..])
  }

  /** The sort turns the elements of score `v` around once for every higher one. */
  lemma {:induction false} SortTurns<T>(s: seq<Entry<T>>, v: real)
    ensures OfScore(SortList(s), v) == TurnAll(OfScore(s, v), Depths(s, v, 0))
    decreases |s|
  {
    if s != [] {
      var q := PassList(s[0], s[1..]);
      PassTurns(s, v);
      SortTurns(q.1, v);
      assert SortList(s) == [q.0] + SortList(q.1);
      hide SortList, PassList, OfScore, Depths;
      OfScoreFront(q.0, SortList(q.1), v);
      OfScoreFront(q.0, q.1, v);
    }
  }

  // ---------------------------------------------------------------- when the turns cancel

  function CountOf(ds: seq<nat>, d: nat): nat {
    if ds == [] then 0 else CountOf(ds[..|ds| - 1], d) + if ds[|ds| - 1] == d then 1 else 0
  }

  lemma {:induction false} TurnAllAdds<X>(f: seq<X>, a: seq<nat>, b: seq<nat>)
    requires (forall k :: 0 <= k < |a| ==> a[k] <= |f|) && (forall k :: 0 <= k < |b| ==> b[k] <= |f|)
    ensures TurnAll(f, a + b) == TurnAll(TurnAll(f, a), b)
    decreases |a|
  {
    if a == [] {
      assert a + b == b;
    } else {
      var g, c := Turn(f, a[0]), a + b;
      assert c[0] == a[0] && c[1..] == a[1..] + b;
      assert TurnAll(f, c) == TurnAll(g, c[1..]) && TurnAll(f, a) == TurnAll(g, a[1..]);
      hide Turn, TurnAll;
      TurnAllAdds(g, a[1..], b);
    }
  }

  lemma TurnKeeps<X>(f: seq<X>, d: nat)
    requires d <= |f|
    ensures multiset(Turn(f, d)) == multiset(f)
  {
    if d > 0 {
      assert f == [f[0]] + f[1..d] + f[d..];
      assert multiset(f) == multiset([f[0]]) + multiset(f[1..d]) + multiset(f[d..]);
    }
  }

  lemma {:induction false} TurnAllKeeps<X>(f: seq<X>, ds: seq<nat>)
    requires forall k :: 0 <= k < |ds| ==> ds[k] <= |f|
    ensures multiset(TurnAll(f, ds)) == multiset(f)
    decreases |ds|
  {
    if ds != [] {
      TurnKeeps(f, ds[0]);
      TurnAllKeeps(Turn(f, ds[0]), ds[1..]);
    }
  }

  /** Turns that do not reach the last element leave it where it is. */
  lemma {:induction false} TurnsBelow<X>(f: seq<X>, x: X, ds: seq<nat>)
    requires forall k :: 0 <= k < |ds| ==> ds[k] <= |f|
    ensures TurnAll(f + [x], ds) == TurnAll(f, ds) + [x]
    decreases |ds|
  {
    if ds != [] {
      var d := ds[0];
      assert Turn(f + [x], d) == Turn(f, d) + [x] by {
        if d > 0 {
          assert (f + [x])[1..d] == f[1..d] && (f + [x])[d..] == f[d..] + [x];
        }
      }
      TurnsBelow(Turn(f, d), x, ds[1..]);
    }
  }

  function Repeat(n: nat, c: nat): (ds: seq<nat>)
    ensures |ds| == c && forall k :: 0 <= k < c ==> ds[k] == n
  {
    seq(c, k requires 0 <= k < c => n)
  }

  function Rotated<X>(f: seq<X>, m: nat): (r: seq<X>)
    requires m <= |f|
    ensures |r| == |f|
  {
    f[m..] + f[..m]
  }

  lemma TurnRotated<X>(f: seq<X>, m: nat)
    requires m < |f|
    ensures Turn(Rotated(f, m), |f|) == Rotated(f, m + 1)
  {
    var r := Rotated(f, m);
    assert r[0] == f[m] && r[1..|f|] == f[m + 1..] + f[..m];
    assert f[..m] + [f[m]] == f[..m + 1];
    assert r[|f|..] == [];
  }

  /** Turning all elements up to as many times as there are. */
  lemma {:induction false} SpinPart<X>(f: seq<X>, c: nat)
    requires c <= |f|
    ensures TurnAll(f, Repeat(|f|, c)) == Rotated(f, c)
  {
    if c == 0 {
      assert Rotated(f, 0) == f;
    } else {
      var n := |f|;
      SpinPart(f, c - 1);
      assert Repeat(n, c) == Repeat(n, c - 1) + [n];
      TurnAllAdds(f, Repeat(n, c - 1), [n]);
      var g := TurnAll(f, Repeat(n, c - 1));
      assert TurnAll(g, [n]) == TurnAll(Turn(g, n), []) by {
        assert [n][1..] == [];
      }
      TurnRotated(f, c - 1);
    }
  }

  lemma AtLeast(n: nat, d: nat)
    requires d > 0
    ensures n * d >= n
  {
    assert n * d == n * (d - 1) + n;
  }

  lemma Remainder(n: nat, q: int, m: nat)
    requires m < n
    ensures (n * q + m) % n == m
  {
    var x := n * q + m;
    var k := x / n;
    assert x == n * k + x % n;
    assert n * (q - k) == x % n - m && n * (k - q) == m - x % n;
    if q > k {
      AtLeast(n, q - k);
    } else if k > q {
      AtLeast(n, k - q);
    }
  }

  lemma LessOnce(c: nat, n: nat)
    requires 0 < n <= c
    ensures (c - n) % n == c % n
  {
    var q, m := c / n, c % n;
    assert c == n * q + m;
    assert c - n == n * (q - 1) + m;
    Remainder(n, q - 1, m);
  }

  lemma SpinOnce<X>(f: seq<X>, c: nat)
    requires |f| <= c
    ensures TurnAll(f, Repeat(|f|, c)) == TurnAll(f, Repeat(|f|, c - |f|))
  {
    hide TurnAll, Rotated, Repeat;
    var n := |f|;
    var once, rest := Repeat(n, n), Repeat(n, c - n);
    assert Repeat(n, c) == once + rest by {
      RepeatAdds(n, n, c - n);
    }
    TurnAllAdds(f, once, rest);
    assert TurnAll(f, once) == f by {
      SpinPart(f, n);
      RotatedFully(f);
    }
  }

  lemma RepeatAdds(n: nat, a: nat, b: nat)
    ensures Repeat(n, a + b) == Repeat(n, a) + Repeat(n, b)
  {
  }

  lemma RotatedFully<X>(f: seq<X>)
    ensures Rotated(f, |f|) == f
  {
  }

  /** Turning all elements any number of times. */
  lemma {:induction false} Spin<X>(f: seq<X>, c: nat)
    requires f != []
    ensures c % |f| < |f| && TurnAll(f, Repeat(|f|, c)) == Rotated(f, c % |f|)
    decreases c
  {
    hide TurnAll, Rotated, Repeat;
    var n := |f|;
    if c < n {
      Remainder(n, 0, c);
      SpinPart(f, c);
    } else {
      LessOnce(c, n);
      SpinOnce(f, c);
      Spin(f, c - n);
    }
  }

  /** `lows` is what comes before the deepest ones. */
  ghost predicate Lows(ds: seq<nat>, n: nat, lows: seq<nat>) {
    && ds == lows + Repeat(n, CountOf(ds, n))
    && (forall k :: 0 <= k < |lows| ==> lows[k] < n)
    && (forall d :: d != n ==> CountOf(lows, d) == CountOf(ds, d))
  }

  /** Sorted depths end with those that are as deep as possible. */
  lemma {:induction false} SplitTop(ds: seq<nat>, n: nat) returns (lows: seq<nat>)
    requires Depth(ds, n)
    ensures Lows(ds, n, lows)
  {
    if ds == [] {
      return [];
    }
    var m := |ds| - 1;
    if ds[m] == n {
      lows := SplitTop(ds[..m], n);
      OneDeeper(ds[..m], n, lows);
      assert ds == ds[..m] + [n];
    } else {
      NoneOf(ds, n);
      lows := ds;
    }
  }

  lemma OneDeeper(ds: seq<nat>, n: nat, lows: seq<nat>)
    requires Lows(ds, n, lows)
    ensures Lows(ds + [n], n, lows)
  {
    var c := CountOf(ds, n);
    assert (ds + [n])[..|ds|] == ds;
    assert Repeat(n, c + 1) == Repeat(n, c) + [n];
  }

  lemma LowsAreSorted(ds: seq<nat>, n: nat, lows: seq<nat>)
    requires n > 0 && Depth(ds, n) && Lows(ds, n, lows)
    ensures Depth(lows, n - 1)
  {
    assert forall k :: 0 <= k < |lows| ==> lows[k] == ds[k];
  }

  lemma {:induction false} NoneOf(ds: seq<nat>, n: nat)
    requires n !in ds
    ensures CountOf(ds, n) == 0
  {
    if ds != [] {
      NoneOf(ds[..|ds| - 1], n);
    }
  }

  ghost predicate Multiples(ds: seq<nat>, n: nat) {
    forall d :: 0 < d <= n ==> CountOf(ds, d) % d == 0
  }

  /** The turns, seen from the last element: the others turn first, then all of them. */
  lemma TurnsLast<X>(g: seq<X>, x: X, ds: seq<nat>, lows: seq<nat>)
    requires Depth(ds, |g| + 1) && Lows(ds, |g| + 1, lows)
    ensures forall k :: 0 <= k < |lows| ==> lows[k] <= |g|
    ensures var c := CountOf(ds, |g| + 1) % (|g| + 1);
            c <= |g| && TurnAll(g + [x], ds) == Rotated(TurnAll(g, lows) + [x], c)
  {
    var n := |g| + 1;
    var c := CountOf(ds, n);
    TurnAllAdds(g + [x], lows, Repeat(n, c));
    TurnsBelow(g, x, lows);
    Spin(TurnAll(g, lows) + [x], c);
  }

  lemma FewerMultiples(ds: seq<nat>, n: nat, lows: seq<nat>)
    requires n > 0 && Lows(ds, n, lows)
    ensures Multiples(ds, n) <==> Multiples(lows, n - 1) && CountOf(ds, n) % n == 0
  {
    assert forall d :: 0 < d < n ==> CountOf(lows, d) == CountOf(ds, d);
  }

  /** Turns by sorted depths lead back if each depth occurs as a multiple of itself. */
  lemma {:induction false} TurnsBack<X>(f: seq<X>, ds: seq<nat>)
    requires Depth(ds, |f|) && Multiples(ds, |f|)
    ensures TurnAll(f, ds) == f
    decreases |f|
  {
    if f != [] {
      var n := |f|;
      var g, x := f[..n - 1], f[n - 1];
      assert f == g + [x];
      var lows := SplitTop(ds, n);
      LowsAreSorted(ds, n, lows);
      FewerMultiples(ds, n, lows);
      TurnsLast(g, x, ds, lows);
      TurnsBack(g, lows);
      assert Rotated(f, 0) == f;
    }
  }

  ghost predicate AllDiffer<X(!new)>(f: seq<X>) {
    forall i, j :: 0 <= i < j < |f| ==> f[i] != f[j]
  }

  /** And where the elements differ, only if. */
  lemma {:induction false} TurnsBackOnly<X(!new)>(f: seq<X>, ds: seq<nat>)
    requires Depth(ds, |f|) && AllDiffer(f) && TurnAll(f, ds) == f
    ensures Multiples(ds, |f|)
    decreases |f|
  {
    if f != [] {
      var n := |f|;
      var g, x := f[..n - 1], f[n - 1];
      assert f == g + [x];
      var lows := SplitTop(ds, n);
      LowsAreSorted(ds, n, lows);
      FewerMultiples(ds, n, lows);
      TurnsLast(g, x, ds, lows);
      TurnAllKeeps(g, lows);
      hide Lows, Depth, Multiples, CountOf, TurnAll, Rotated;
      LastIsBack(g, x, TurnAll(g, lows), CountOf(ds, n) % n);
      TurnsBackOnly(g, lows);
    }
  }

  lemma LastOfRotated<X(!new)>(h: seq<X>, x: X, c: nat)
    requires c <= |h|
    ensures c > 0 && Rotated(h + [x], c)[|h|] == x ==> x in multiset(h)
    ensures c == 0 ==> Rotated(h + [x], c) == h + [x]
  {
    if c > 0 {
      assert Rotated(h + [x], c)[|h|] == h[c - 1];
    }
  }

  lemma LastIsBack<X(!new)>(g: seq<X>, x: X, h: seq<X>, c: nat)
    requires c <= |g| == |h| && multiset(h) == multiset(g) && AllDiffer(g + [x]) && Rotated(h + [x], c) == g + [x]
    ensures c == 0 && h == g
  {
    var f := g + [x];
    assert forall i :: 0 <= i < |g| ==> g[i] == f[i] && f[i] != f[|g|];
    assert x !in g;
    LastOfRotated(h, x, c);
    assert f[|g|] == x;
    assert h == (h + [x])[..|h|] && g == f[..|g|];
  }

  // ---------------------------------------------------------------- stability

  /** Equal scores come out in the order they went in. */
  ghost predicate Stable<T(!new)>(a: seq<Entry<T>>) {
    forall v :: OfScore(Sort(a, 0), v) == OfScore(a, v)
  }

  lemma CountAppend(x: nat, ds: seq<nat>, d: nat)
    ensures CountOf([x] + ds, d) == (if x == d then 1 else 0) + CountOf(ds, d)
    decreases |ds|
  {
    if ds == [] {
      assert [x] + ds == [x] && [x][..0] == [];
    } else {
      var m := |ds| - 1;
      CountAppend(x, ds[..m], d);
      assert ([x] + ds)[..m + 1] == [x] + ds[..m];
    }
  }

  lemma {:induction false} AboveCounts<T>(a: seq<Entry<T>>, v: real, e: nat, d: nat)
    ensures Above(a, v, e, d) == CountOf(Depths(a, v, e), d)
    decreases |a|
  {
    if a != [] {
      var x, t := a[0], a[1..];
      AboveCounts(t, v, if x.score == v then e + 1 else e, d);
      if x.score > v {
        CountAppend(e, Depths(t, v, e), d);
      }
    }
  }

  lemma DepthsAreDepth<T>(a: seq<Entry<T>>, v: real)
    ensures Depth(Depths(a, v, 0), |OfScore(a, v)|)
  {
  }

  lemma AboveOrNone<T>(a: seq<Entry<T>>, v: real, d: nat)
    ensures Above(a, v, 0, d) == CountOf(Depths(a, v, 0), d)
    ensures d > |OfScore(a, v)| ==> Above(a, v, 0, d) == 0
  {
    AboveCounts(a, v, 0, d);
    if d > |OfScore(a, v)| {
      NoneOf(Depths(a, v, 0), d);
    }
  }

  /** The condition for one score. */
  ghost predicate BalancedAt<T>(a: seq<Entry<T>>, v: real) {
    forall d: nat :: d > 0 ==> Above(a, v, 0, d) % d == 0
  }

  lemma BalancedMultiples<T>(a: seq<Entry<T>>, v: real)
    ensures BalancedAt(a, v) <==> Multiples(Depths(a, v, 0), |OfScore(a, v)|)
  {
    hide Above, Depths, CountOf, OfScore;
    var ds, n := Depths(a, v, 0), |OfScore(a, v)|;
    if BalancedAt(a, v) {
      forall d | 0 < d <= n
        ensures CountOf(ds, d) % d == 0
      {
        AboveOrNone(a, v, d);
        assert Above(a, v, 0, d) % d == 0;
      }
    }
    if Multiples(ds, n) {
      forall d: nat | d > 0
        ensures Above(a, v, 0, d) % d == 0
      {
        AboveOrNone(a, v, d);
        if d <= n {
          assert CountOf(ds, d) % d == 0;
        } else {
          Remainder(d, 0, 0);
        }
      }
    }
  }

  /** A balanced list is sorted stably, whatever its elements. */
  lemma BalancedIsStable<T(!new)>(a: seq<Entry<T>>)
    requires Balanced(a)
    ensures Stable(a)
  {
    forall v
      ensures OfScore(Sort(a, 0), v) == OfScore(a, v)
    {
      assert BalancedAt(a, v);
      BalancedMultiples(a, v);
      DepthsAreDepth(a, v);
      SortIsList(a);
      SortTurns(a, v);
      TurnsBack(OfScore(a, v), Depths(a, v, 0));
    }
  }

  lemma {:induction false} OfScoreMembers<T>(a: seq<Entry<T>>, v: real)
    ensures forall x :: x in OfScore(a, v) ==> x in a
  {
    if a != [] {
      OfScoreMembers(a[1..], v);
    }
  }

  lemma {:induction false} OfScoreDiffer<T(!new)>(a: seq<Entry<T>>, v: real)
    requires AllDiffer(a)
    ensures AllDiffer(OfScore(a, v))
  {
    if a != [] {
      OfScoreDiffer(a[1..], v);
      OfScoreMembers(a[1..], v);
      assert forall i :: 0 < i < |a| ==> a[i] != a[0];
      assert a[0] !in a[1..];
    }
  }

  lemma StableAt<T(!new)>(a: seq<Entry<T>>, v: real)
    requires AllDiffer(a) && OfScore(Sort(a, 0), v) == OfScore(a, v)
    ensures BalancedAt(a, v)
  {
    BalancedMultiples(a, v);
    DepthsAreDepth(a, v);
    SortIsList(a);
    SortTurns(a, v);
    OfScoreDiffer(a, v);
    TurnsBackOnly(OfScore(a, v), Depths(a, v, 0));
  }

  /** A list of different elements is sorted stably only if it is balanced. */
  lemma StableIsBalanced<T(!new)>(a: seq<Entry<T>>)
    requires AllDiffer(a) && Stable(a)
    ensures Balanced(a)
  {
    forall v, d: nat | d > 0
      ensures Above(a, v, 0, d) % d == 0
    {
      assert OfScore(Sort(a, 0), v) == OfScore(a, v);
      StableAt(a, v);
    }
  }

  /** The list with every element replaced by its place, so that no two elements are alike. */
  function Placed<T>(a: seq<Entry<T>>): (r: seq<Entry<nat>>)
    ensures |r| == |a| && forall k :: 0 <= k < |a| ==> r[k] == Entry(k, a[k].score)
  {
    seq(|a|, k requires 0 <= k < |a| => Entry(k, a[k].score))
  }

  /** Sorting places is sorting the elements. */
  ghost predicate Traces<T>(a: seq<Entry<T>>, b: seq<Entry<T>>, p: seq<Entry<nat>>) {
    && |b| == |p|
    && forall k :: 0 <= k < |p| ==> p[k].value < |a| && b[k] == a[p[k].value] && b[k].score == p[k].score
  }

  lemma SwapTraces<T>(a: seq<Entry<T>>, b: seq<Entry<T>>, p: seq<Entry<nat>>, i: nat, j: nat)
    requires Traces(a, b, p) && i < j < |b|
    ensures Traces(a, Swap(b, i, j), Swap(p, i, j))
  {
  }

  lemma SameScores<T>(a: seq<Entry<T>>, b: seq<Entry<T>>, p: seq<Entry<nat>>)
    requires Traces(a, b, p)
    ensures |p| == |b| && forall k :: 0 <= k < |b| ==> p[k].score == b[k].score
  {
  }

  lemma {:induction false} PassTraces<T>(a: seq<Entry<T>>, b: seq<Entry<T>>, p: seq<Entry<nat>>, i: nat, j: nat)
    requires Traces(a, b, p) && i < j <= |b| == |p|
    ensures Traces(a, Pass(b, i, j), Pass(p, i, j))
    decreases |b| - j
  {
    hide Traces, Pass, Swap;
    PassAgain(b, i, j);
    PassAgain(p, i, j);
    if j < |b| {
      SameScores(a, b, p);
      if b[j].score > b[i].score {
        SwapTraces(a, b, p, i, j);
        SameScores(a, Swap(b, i, j), Swap(p, i, j));
        SwapElsewhere(b, i, j);
        PassTraces(a, Swap(b, i, j), Swap(p, i, j), i, j + 1);
      } else {
        PassTraces(a, b, p, i, j + 1);
      }
    }
  }

  lemma SortAgain<T>(b: seq<Entry<T>>, i: nat)
    ensures i >= |b| ==> Sort(b, i) == b
    ensures i < |b| ==> Sort(b, i) == Sort(Pass(b, i, i + 1), i + 1)
  {
  }

  lemma {:induction false} SortTraces<T>(a: seq<Entry<T>>, b: seq<Entry<T>>, p: seq<Entry<nat>>, i: nat)
    requires Traces(a, b, p) && |b| == |p|
    ensures Traces(a, Sort(b, i), Sort(p, i))
    decreases |b| - i
  {
    hide Traces, Pass, Sort;
    SortAgain(b, i);
    SortAgain(p, i);
    if i < |b| {
      PassTraces(a, b, p, i, i + 1);
      SortTraces(a, Pass(b, i, i + 1), Pass(p, i, i + 1), i + 1);
    }
  }

  lemma {:induction false} AboveByScore<T>(a: seq<Entry<T>>, p: seq<Entry<nat>>, v: real, e: nat, d: nat)
    requires |a| == |p| && forall k :: 0 <= k < |a| ==> a[k].score == p[k].score
    ensures Above(a, v, e, d) == Above(p, v, e, d)
    decreases |a|
  {
    if a != [] {
      AboveByScore(a[1..], p[1..], v, if a[0].score == v then e + 1 else e, d);
    }
  }

  /** The places the elements are sorted from: `Sort(a, 0)[k]` is the element that was at the k-th of them,
      and elements with equal scores keep their order, if and only if the list is balanced. */
  lemma KeepsOrder<T(!new)>(a: seq<Entry<T>>)
    ensures Traces(a, Sort(a, 0), Sort(Placed(a), 0))
    ensures Stable(Placed(a)) <==> Balanced(a)
  {
    SortTraces(a, a, Placed(a), 0);
    forall v, d: nat
      ensures Above(a, v, 0, d) == Above(Placed(a), v, 0, d)
    {
      AboveByScore(a, Placed(a), v, 0, d);
    }
    hide Above, Stable;
    assert Balanced(a) <==> Balanced(Placed(a));
    if Balanced(a) {
      BalancedIsStable(Placed(a));
    }
    if Stable(Placed(a)) {
      StableIsBalanced(Placed(a));
    }
  }

  // ---------------------------------------------------------------- in particular

  lemma {:induction false} AboveWhere<T>(a: seq<Entry<T>>, v: real, e: nat, d: nat) returns (r: nat)
    requires Above(a, v, e, d) > 0
    ensures r < |a| && a[r].score > v && e + |OfScore(a[..r], v)| == d
    decreases |a|
  {
    if a[0].score > v && e == d {
      r := 0;
    } else {
      var k := AboveWhere(a[1..], v, if a[0].score == v then e + 1 else e, d);
      r := k + 1;
      assert a[..r] == [a[0]] + a[1..][..k];
      OfScoreFront(a[0], a[1..][..k], v);
    }
  }

  lemma {:induction false} OneOfScore<T>(a: seq<Entry<T>>, v: real) returns (q: nat)
    requires |OfScore(a, v)| > 0
    ensures q < |a| && a[q].score == v && |OfScore(a[q + 1..], v)| == |OfScore(a, v)| - 1
  {
    if a[0].score == v {
      q := 0;
    } else {
      var k := OneOfScore(a[1..], v);
      q := k + 1;
      assert a[1..][k + 1..] == a[q + 1..];
    }
  }

  /** Something higher with two or more elements of score `v` before it. */
  lemma TieBelow<T>(a: seq<Entry<T>>, v: real, d: nat) returns (p: nat, q: nat, r: nat)
    requires d >= 2 && Above(a, v, 0, d) > 0
    ensures p < q < r < |a| && a[p].score == a[q].score == v < a[r].score
  {
    hide Above, OfScore;
    r := AboveWhere(a, v, 0, d);
    p := OneOfScore(a[..r], v);
    var k := OneOfScore(a[..r][p + 1..], v);
    q := p + 1 + k;
    assert a[..r][p + 1..][k] == a[q];
  }

  /** Where no two equal scores come before a higher one, equal scores keep their order. */
  lemma NoTieBelow<T(!new)>(a: seq<Entry<T>>)
    requires forall p, q, r :: 0 <= p < q < r < |a| ==> !(a[p].score == a[q].score < a[r].score)
    ensures Stable(a)
  {
    forall v, d: nat | d > 0
      ensures Above(a, v, 0, d) % d == 0
    {
      if d == 1 {
        Remainder(1, Above(a, v, 0, d), 0);
      } else if Above(a, v, 0, d) > 0 {
        var p, q, r := TieBelow(a, v, d);
        assert false;
      } else {
        Remainder(d, 0, 0);
      }
    }
    BalancedIsStable(a);
  }

  lemma PairFront<T>(x: Entry<T>, y: Entry<T>, t: seq<Entry<T>>, u: real)
    requires x.score == y.score
    ensures OfScore([x, y] + t, u) == if x.score == u then [x, y] + OfScore(t, u) else OfScore(t, u)
  {
    hide OfScore;
    assert [x, y] + t == [x] + ([y] + t);
    OfScoreFront(x, [y] + t, u);
    OfScoreFront(y, t, u);
  }

  lemma TwoPairs<T>(x: Entry<T>, y: Entry<T>, z: Entry<T>, w: Entry<T>, u: real)
    requires x.score == y.score < z.score == w.score
    ensures OfScore([z, w, x, y], u) == OfScore([x, y, z, w], u)
  {
    hide OfScore;
    assert [x, y] == [x, y] + [] && [z, w] == [z, w] + [];
    PairFront(x, y, [], u);
    PairFront(z, w, [], u);
    PairFront(x, y, [z, w], u);
    PairFront(z, w, [x, y], u);
    NoneOfScore<T>(u);
    assert [x, y] + [z, w] == [x, y, z, w] && [z, w] + [x, y] == [z, w, x, y];
  }

  lemma NoneOfScore<T>(u: real)
    ensures OfScore<T>([], u) == []
  {
  }

  /** Two higher ones behind two equal ones cancel: the equal ones are back in order. */
  lemma TwoCancel(v: real, w: real)
    requires v < w
    ensures var a := [Entry(0, v), Entry(1, v), Entry(2, w), Entry(3, w)];
            Stable(a) && Sort(a, 0) == [a[2], a[3], a[0], a[1]]
  {
    var a := [Entry(0, v), Entry(1, v), Entry(2, w), Entry(3, w)];
    var b := [a[2], a[1], a[0], a[3]];
    var c := [a[2], a[3], a[0], a[1]];
    assert Swap(a, 0, 2) == b && Swap(b, 1, 3) == c;
    assert Pass(a, 0, 1) == Pass(a, 0, 2) == Pass(b, 0, 3) == Pass(b, 0, 4) == b;
    assert Pass(b, 1, 2) == Pass(b, 1, 3) == Pass(c, 1, 4) == c;
    assert Pass(c, 2, 3) == Pass(c, 2, 4) == c;
    assert Sort(a, 0) == Sort(b, 1) == Sort(c, 2) == Sort(c, 3) == c;
    forall u
      ensures OfScore(c, u) == OfScore(a, u)
    {
      TwoPairs(a[0], a[1], a[2], a[3], u);
    }
  }
}
