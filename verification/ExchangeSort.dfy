/**
 The exchange sort that pkg/clihub/capability.go and pkg/api/server.go both write out: from the front, each
 place is compared with every later one and swapped whenever the later score is higher. `Sort` is the
 specification; the two methods are the loops.
 */
module ExchangeSort {

  /** Something that was given a score; whole-number scores are reals without a fraction. */
  datatype Entry<T> = Entry(value: T, score: real)

  function Swap<T>(a: seq<T>, i: nat, j: nat): seq<T>
    requires i < |a| && j < |a|
  {
    a[i := a[j]][j := a[i]]
  }

  /** The inner loop from `j` on. */
  function Pass<T>(a: seq<Entry<T>>, i: nat, j: nat): (r: seq<Entry<T>>)
    requires i < j <= |a|
    ensures |r| == |a|
    decreases |a| - j
  {
    if j == |a| then a else Pass(if a[j].score > a[i].score then Swap(a, i, j) else a, i, j + 1)
  }

  /** The outer loop from `i` on. */
  function Sort<T>(a: seq<Entry<T>>, i: nat): (r: seq<Entry<T>>)
    ensures |r| == |a|
    decreases |a| - i
  {
    if i >= |a| then a else Sort(Pass(a, i, i + 1), i + 1)
  }

  // ---------------------------------------------------------------- a descending permutation

  lemma SwapPermutes<T>(a: seq<T>, i: nat, j: nat)
    requires i < j < |a|
    ensures multiset(Swap(a, i, j)) == multiset(a) && |Swap(a, i, j)| == |a| && Swap(a, i, j)[..i] == a[..i]
  {
    assert a == a[..i] + [a[i]] + a[i + 1..j] + [a[j]] + a[j + 1..];
    assert Swap(a, i, j) == a[..i] + [a[j]] + a[i + 1..j] + [a[i]] + a[j + 1..];
  }

  lemma PassAgain<T>(a: seq<Entry<T>>, i: nat, j: nat)
    requires i < j <= |a|
    ensures j == |a| ==> Pass(a, i, j) == a
    ensures j < |a| ==> Pass(a, i, j) == Pass(if a[j].score > a[i].score then Swap(a, i, j) else a, i, j + 1)
  {
  }

  lemma {:induction false} PassPermutes<T>(a: seq<Entry<T>>, i: nat, j: nat)
    requires i < j <= |a|
    ensures multiset(Pass(a, i, j)) == multiset(a) && Pass(a, i, j)[..i] == a[..i]
    decreases |a| - j
  {
    hide Pass, Swap;
    PassAgain(a, i, j);
    if j < |a| {
      SwapPermutes(a, i, j);
      if a[j].score > a[i].score {
        PassPermutes(Swap(a, i, j), i, j + 1);
      } else {
        PassPermutes(a, i, j + 1);
      }
    }
  }

  predicate NoneHigher<T>(a: seq<Entry<T>>, i: nat, lo: nat, hi: nat)
    requires i < |a| && hi <= |a|
  {
    forall k :: lo <= k < hi ==> a[k].score <= a[i].score
  }

  lemma {:induction false} PassFindsHighest<T>(a: seq<Entry<T>>, i: nat, j: nat)
    requires i < j <= |a| && NoneHigher(a, i, i, j)
    ensures NoneHigher(Pass(a, i, j), i, i, |a|)
    decreases |a| - j
  {
    if j < |a| {
      PassFindsHighest(if a[j].score > a[i].score then Swap(a, i, j) else a, i, j + 1);
    }
  }

  /** `f` is the first place from `i` on where the score is as high as anywhere from `i` to `hi`. */
  predicate FirstHighest<T>(a: seq<Entry<T>>, i: nat, hi: nat, f: nat)
    requires hi <= |a|
  {
    && i <= f < hi && NoneHigher(a, f, i, hi)
    && forall k :: i <= k < f ==> a[k].score < a[f].score
  }

  /** A pass moves to place `i` what was first with the highest score; `b` is the list as the pass has left
      it at `j`, `a` the list it started from. */
  lemma {:induction false} PassFindsFirst<T>(a: seq<Entry<T>>, b: seq<Entry<T>>, i: nat, j: nat, f: nat) returns (g: nat)
    requires i < j <= |a| == |b| && a[j..] == b[j..] && FirstHighest(a, i, j, f) && b[i] == a[f]
    ensures FirstHighest(a, i, |a|, g) && Pass(b, i, j)[i] == a[g]
    decreases |a| - j
  {
    if j == |a| {
      return f;
    }
    assert a[j..][0] == a[j] && b[j..][0] == b[j];
    var c := if b[j].score > b[i].score then Swap(b, i, j) else b;
    assert a[j + 1..] == c[j + 1..] by {
      assert forall k :: j + 1 <= k < |a| ==> a[k] == a[j..][k - j] && c[k] == b[j..][k - j];
    }
    g := PassFindsFirst(a, c, i, j + 1, if b[j].score > b[i].score then j else f);
  }

  predicate Descending<T>(a: seq<Entry<T>>, n: nat)
    requires n <= |a|
  {
    forall k, l :: 0 <= k < n && k < l < |a| ==> a[l].score <= a[k].score
  }

  /** A permutation of what follows `i` keeps what holds of the front. */
  lemma FrontStays<T>(a: seq<Entry<T>>, b: seq<Entry<T>>, i: nat)
    requires i <= |a| == |b| && a[..i] == b[..i] && multiset(a) == multiset(b) && Descending(a, i)
    ensures Descending(b, i)
  {
    assert multiset(a[i..]) == multiset(b[i..]) by {
      assert a == a[..i] + a[i..] && b == b[..i] + b[i..];
      assert multiset(a[i..]) == multiset(a) - multiset(a[..i]);
      assert multiset(b[i..]) == multiset(b) - multiset(b[..i]);
    }
    forall k, l | 0 <= k < i && k < l < |b|
      ensures b[l].score <= b[k].score
    {
      assert b[k] == b[..i][k] == a[k];
      if l < i {
        assert b[l] == b[..i][l] == a[l];
      } else {
        assert b[l] == b[i..][l - i] && b[l] in multiset(a[i..]);
        var m :| 0 <= m < |a[i..]| && a[i..][m] == b[l];
        assert a[i + m] == b[l];
      }
    }
  }

  lemma {:induction false} SortSorts<T>(a: seq<Entry<T>>, i: nat)
    requires i <= |a| && Descending(a, i)
    ensures Descending(Sort(a, i), |a|) && multiset(Sort(a, i)) == multiset(a)
    decreases |a| - i
  {
    if i < |a| {
      var b := Pass(a, i, i + 1);
      PassPermutes(a, i, i + 1);
      PassFindsHighest(a, i, i + 1);
      FrontStays(a, b, i);
      SortSorts(b, i + 1);
    }
  }

  /** The sort is a descending permutation of its input. */
  lemma SortIsDescendingPermutation<T>(a: seq<Entry<T>>)
    ensures multiset(Sort(a, 0)) == multiset(a)
    ensures forall k, l :: 0 <= k < l < |a| ==> Sort(a, 0)[l].score <= Sort(a, 0)[k].score
  {
    SortSorts(a, 0);
  }

  lemma {:induction false} SortKeepsFront<T>(a: seq<Entry<T>>, i: nat)
    requires i <= |a|
    ensures Sort(a, i)[..i] == a[..i]
    decreases |a| - i
  {
    if i < |a| {
      var b := Pass(a, i, i + 1);
      PassPermutes(a, i, i + 1);
      SortKeepsFront(b, i + 1);
      assert Sort(a, i)[..i] == Sort(b, i + 1)[..i + 1][..i] == b[..i + 1][..i] == b[..i];
    }
  }

  /** At its head comes what was first with the highest score. */
  lemma HeadIsFirstHighest<T>(a: seq<Entry<T>>) returns (f: nat)
    requires a != []
    ensures FirstHighest(a, 0, |a|, f) && Sort(a, 0)[0] == a[f]
  {
    var b := Pass(a, 0, 1);
    f := PassFindsFirst(a, a, 0, 1, 0);
    SortKeepsFront(b, 1);
    assert Sort(b, 1)[0] == Sort(b, 1)[..1][0] == b[..1][0];
  }

  /** Further down equal scores may change places: the sort is not stable. */
  lemma TiesMayChangePlaces(p: Entry<nat>, q: Entry<nat>, best: Entry<nat>)
    requires p.score == q.score < best.score
    ensures Sort([p, q, best], 0) == [best, q, p]
  {
    var a, b := [p, q, best], [best, q, p];
    assert Swap(a, 0, 2) == b;
    calc {
      Sort(a, 0);
      Sort(Pass(a, 0, 1), 1);
      { assert Pass(a, 0, 1) == Pass(a, 0, 2) == Pass(b, 0, 3) == b; }
      Sort(b, 1);
      { assert Pass(b, 1, 2) == Pass(b, 1, 3) == b; }
      Sort(b, 2);
      { assert Pass(b, 2, 3) == b; }
      Sort(b, 3);
      b;
    }
  }

  // ---------------------------------------------------------------- in place

  /** The inner loop, in place. */
  method PassInPlace<T>(a: array<Entry<T>>, i: nat)
    requires i < a.Length
    modifies a
    ensures a[..] == Pass(old(a[..]), i, i + 1)
  {
    for j := i + 1 to a.Length
      invariant Pass(a[..], i, j) == Pass(old(a[..]), i, i + 1)
    {
      ghost var before := a[..];
      if a[j].score > a[i].score {
        a[i], a[j] := a[j], a[i];
        assert a[..] == Swap(before, i, j);
      }
    }
  }

  /** `sortByScore` of pkg/api/server.go. */
  method SortByScore<T>(a: array<Entry<T>>)
    modifies a
    ensures a[..] == Sort(old(a[..]), 0)
  {
    for i := 0 to a.Length
      invariant Sort(a[..], i) == Sort(old(a[..]), 0)
    {
      PassInPlace(a, i);
    }
  }

  /** `sortSliceByScore` of pkg/clihub/capability.go, which leaves out the last, empty pass. */
  method SortSliceByScore<T>(a: array<Entry<T>>)
    modifies a
    ensures a[..] == Sort(old(a[..]), 0)
  {
    var i := 0;
    while i < a.Length - 1
      invariant 0 <= i && (a.Length > 0 ==> i < a.Length)
      invariant Sort(a[..], i) == Sort(old(a[..]), 0)
    {
      PassInPlace(a, i);
      i := i + 1;
    }
    if a.Length > 0 {
      assert Sort(a[..], i) == Sort(Pass(a[..], i, i + 1), i + 1) == a[..];
    }
  }
}
