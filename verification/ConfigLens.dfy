/**
 Reading, writing and removing places in a JSON tree, as lookupConfigPath, setConfigPath and
 unsetConfigPath of cmd/anyclaw/config_cli.go do, and the laws that make the three fit together.
 A place that is absent and a place that holds null look the same to a write.
 */
module ConfigLens {
  import opened Wrappers
  import opened ConfigPath

  datatype Json =
    | Null
    | Bool(b: bool)
    | Num(n: real)
    | Str(s: string)
    | Arr(items: seq<Json>)
    | Obj(fields: map<string, Json>)

  type Path = seq<Token>

  /** A segment that does not fit the value it meets. */
  datatype Clash = NotArray | NotObject

  datatype Lookup = Found(value: Json) | Missing | Wrong(clash: Clash)

  /** What a token picks out of one value. */
  function Child(c: Json, t: Token): Lookup {
    match t
    case Index(i) => if !c.Arr? then Wrong(NotArray) else if i < |c.items| then Found(c.items[i]) else Missing
    case Key(k) => if !c.Obj? then Wrong(NotObject) else if k in c.fields then Found(c.fields[k]) else Missing
  }

  function Get(c: Json, p: Path): Lookup
    decreases p
  {
    if p == [] then Found(c) else
      match Child(c, p[0])
      case Found(x) => Get(x, p[1..])
      case other => other
  }

  /** `lookupConfigPath`. */
  method LookupConfigPath(current0: Json, tokens: Path) returns (r: Lookup)
    ensures r == Get(current0, tokens)
  {
    var current := current0;
    for i := 0 to |tokens|
      invariant Get(current, tokens[i..]) == Get(current0, tokens)
    {
      assert tokens[i..][1..] == tokens[i + 1..];
      match tokens[i] {
        case Index(n) =>
          if !current.Arr? {
            return Wrong(NotArray);
          }
          if n >= |current.items| {
            return Missing;
          }
          current := current.items[n];
        case Key(k) =>
          if !current.Obj? {
            return Wrong(NotObject);
          }
          if k !in current.fields {
            return Missing;
          }
          current := current.fields[k];
      }
    }
    r := Found(current);
  }

  // ---------------------------------------------------------------- writing

  /** Whether a token can be written through: null becomes whatever container is needed. */
  predicate Fits(c: Json, t: Token) {
    c.Null? || (if t.Index? then c.Arr? else c.Obj?)
  }

  function Pad(items: seq<Json>, n: nat): (r: seq<Json>)
    ensures |r| == if |items| < n then n else |items|
    ensures forall i :: 0 <= i < |r| ==> r[i] == if i < |items| then items[i] else Null
  {
    if |items| < n then items + seq(n - |items|, _ => Null) else items
  }

  /** The value at a place that is about to be written: null where there is none. */
  function Slot(c: Json, t: Token): Json {
    match Child(c, t)
    case Found(x) => x
    case _ => Null
  }

  /** The value with one child replaced, its container made or extended as needed. */
  function Put(c: Json, t: Token, x: Json): (r: Json)
    requires Fits(c, t)
    ensures Child(r, t) == Found(x)
  {
    match t
    case Index(i) =>
      var items := if c.Null? then [] else c.items;
      Arr(Pad(items, i + 1)[i := x])
    case Key(k) =>
      var fields := if c.Null? then map[] else c.fields;
      Obj(fields[k := x])
  }

  function ClashAt(t: Token): Clash {
    if t.Index? then NotArray else NotObject
  }

  /** What `setConfigPath` makes of a tree. */
  function Set(c: Json, p: Path, v: Json): Result<Json, Clash>
    decreases p
  {
    if p == [] then Ok(v)
    else if !Fits(c, p[0]) then Err(ClashAt(p[0]))
    else
      match Set(Slot(c, p[0]), p[1..], v)
      case Err(e) => Err(e)
      case Ok(x) => Ok(Put(c, p[0], x))
  }

  /** What was written is read back. */
  lemma {:induction false} SetGet(c: Json, p: Path, v: Json)
    requires Set(c, p, v).Ok?
    ensures Get(Set(c, p, v).value, p) == Found(v)
    decreases p
  {
    if p != [] {
      SetGet(Slot(c, p[0]), p[1..], v);
    }
  }

  lemma PutBack(c: Json, t: Token, x: Json)
    requires Child(c, t) == Found(x)
    ensures Fits(c, t) && Put(c, t, x) == c
  {
    match t
    case Index(i) => assert Pad(c.items, i + 1)[i := x] == c.items;
    case Key(k) => assert c.fields[k := x] == c.fields;
  }

  /** Writing the value that is there already changes nothing. */
  lemma {:induction false} GetSet(c: Json, p: Path, v: Json)
    requires Get(c, p) == Found(v)
    ensures Set(c, p, v) == Ok(c)
    decreases p
  {
    if p != [] {
      GetSet(Slot(c, p[0]), p[1..], v);
      PutBack(c, p[0], Slot(c, p[0]));
    }
  }

  lemma PutTwice(c: Json, t: Token, x: Json, y: Json)
    requires Fits(c, t)
    ensures Fits(Put(c, t, x), t) && Put(Put(c, t, x), t, y) == Put(c, t, y)
  {
    match t
    case Index(i) =>
      assert Put(Put(c, t, x), t, y).items == Put(c, t, y).items;
    case Key(k) =>
      assert Put(Put(c, t, x), t, y).fields == Put(c, t, y).fields;
  }

  /** A second write at the same place absorbs the first. */
  lemma {:induction false} SetSet(c: Json, p: Path, v: Json, w: Json)
    requires Set(c, p, v).Ok?
    ensures Set(c, p, w).Ok? && Set(Set(c, p, v).value, p, w) == Set(c, p, w)
    decreases p
  {
    if p != [] {
      SetSet(Slot(c, p[0]), p[1..], v, w);
      var x, y := Set(Slot(c, p[0]), p[1..], v).value, Set(Slot(c, p[0]), p[1..], w).value;
      PutTwice(c, p[0], x, y);
    }
  }

  /** A write succeeds exactly when no value found on the way, other than null, is of the wrong kind for
      the segment that goes through it. */
  lemma {:induction false} SetSucceeds(c: Json, p: Path, v: Json)
    ensures Set(c, p, v).Ok? <==>
            forall k :: 0 <= k < |p| && Get(c, p[..k]).Found? ==> Fits(Get(c, p[..k]).value, p[k])
    decreases p
  {
    if p != [] {
      var s := Slot(c, p[0]);
      SetSucceeds(s, p[1..], v);
      assert p[..0] == [];
      forall k | 0 < k < |p|
        ensures Child(c, p[0]).Found? ==> Get(c, p[..k]) == Get(s, p[1..][..k - 1])
        ensures !Child(c, p[0]).Found? ==> !Get(c, p[..k]).Found?
      {
        assert p[..k][1..] == p[1..][..k - 1] && p[..k][0] == p[0];
      }
      if Set(c, p, v).Ok? {
        forall k | 0 <= k < |p| && Get(c, p[..k]).Found?
          ensures Fits(Get(c, p[..k]).value, p[k])
        {
          if k > 0 {
            assert p[1..][k - 1] == p[k];
          }
        }
      }
      if forall k :: 0 <= k < |p| && Get(c, p[..k]).Found? ==> Fits(Get(c, p[..k]).value, p[k]) {
        assert Get(c, p[..0]).Found?;
        if Child(c, p[0]).Found? {
          forall k | 0 <= k < |p[1..]| && Get(s, p[1..][..k]).Found?
            ensures Fits(Get(s, p[1..][..k]).value, p[1..][k])
          {
            assert Get(c, p[..k + 1]) == Get(s, p[1..][..k]);
          }
        } else {
          SetInNull(p[1..], v);
        }
      }
    }
  }

  /** A write that fails says what was wanted at the first such value: a list for an index, an object for a key. */
  lemma {:induction false} SetFails(c: Json, p: Path, v: Json) returns (k: nat)
    requires Set(c, p, v).Err?
    ensures k < |p| && Get(c, p[..k]).Found? && !Get(c, p[..k]).value.Null?
    ensures var x := Get(c, p[..k]).value;
            if p[k].Index? then !x.Arr? && Set(c, p, v) == Err(NotArray) else !x.Obj? && Set(c, p, v) == Err(NotObject)
    decreases p
  {
    if !Fits(c, p[0]) {
      k := 0;
    } else {
      var j := SetFails(Slot(c, p[0]), p[1..], v);
      k := j + 1;
      assert p[..k][1..] == p[1..][..j] && p[..k][0] == p[0];
      if !Child(c, p[0]).Found? {
        NothingInNull(p[1..][..j]);
        assert false;
      }
    }
  }

  /** Nothing but null is found in null. */
  lemma NothingInNull(p: Path)
    ensures Get(Null, p).Found? ==> Get(Null, p) == Found(Null)
  {
  }

  /** Through null every path can be written. */
  lemma {:induction false} SetInNull(p: Path, v: Json)
    ensures Set(Null, p, v).Ok?
  {
    if p != [] {
      SetInNull(p[1..], v);
    }
  }

  // ---------------------------------------------------------------- framing

  /** Two paths that part at some segment: neither leads through the other. */
  predicate Diverge(p: Path, q: Path) {
    p != [] && q != [] && (p[0] != q[0] || Diverge(p[1..], q[1..]))
  }

  lemma PutFrame(c: Json, t: Token, x: Json, u: Token)
    requires Fits(c, t) && t != u
    ensures Child(c, u).Found? ==> Child(Put(c, t, x), u) == Child(c, u)
    ensures Child(Put(c, t, x), u).Found? ==>
              Child(Put(c, t, x), u) == Child(c, u) || Child(Put(c, t, x), u) == Found(Null)
  {
  }

  /** A write leaves everything found on a diverging path as it was. */
  lemma {:induction false} SetFrame(c: Json, p: Path, v: Json, q: Path)
    requires Diverge(p, q) && Set(c, p, v).Ok? && Get(c, q).Found?
    ensures Get(Set(c, p, v).value, q) == Get(c, q)
    decreases p
  {
    if p[0] == q[0] {
      SetFrame(Slot(c, p[0]), p[1..], v, q[1..]);
    } else {
      PutFrame(c, p[0], Set(Slot(c, p[0]), p[1..], v).value, q[0]);
    }
  }

  lemma NullHasNoPlaces(q: Path)
    requires q != []
    ensures !Get(Null, q).Found?
  {
  }

  /** A write invents nothing on a diverging path but the nulls that pad an array. */
  lemma {:induction false} SetInventsNothing(c: Json, p: Path, v: Json, q: Path)
    requires Diverge(p, q) && Set(c, p, v).Ok? && Get(Set(c, p, v).value, q).Found?
    ensures Get(c, q) == Get(Set(c, p, v).value, q) || Get(Set(c, p, v).value, q) == Found(Null)
    decreases p
  {
    var x := Set(Slot(c, p[0]), p[1..], v).value;
    if p[0] == q[0] {
      SetInventsNothing(Slot(c, p[0]), p[1..], v, q[1..]);
      if !Child(c, p[0]).Found? {
        NullHasNoPlaces(q[1..]);
      }
    } else {
      PutFrame(c, p[0], x, q[0]);
      if Child(Put(c, p[0], x), q[0]) == Found(Null) && q[1..] != [] {
        NullHasNoPlaces(q[1..]);
      }
    }
  }

  function SetTwice(c: Json, p: Path, v: Json, q: Path, w: Json): Result<Json, Clash> {
    match Set(c, p, v)
    case Err(e) => Err(e)
    case Ok(d) => Set(d, q, w)
  }

  /** Equal up to which of two errors is reported. */
  predicate SameOutcome(a: Result<Json, Clash>, b: Result<Json, Clash>) {
    if a.Ok? then a == b else b.Err?
  }

  lemma PadSwap(items: seq<Json>, i: nat, x: Json, j: nat, y: Json)
    requires i != j
    ensures Pad(Pad(items, i + 1)[i := x], j + 1)[j := y] == Pad(Pad(items, j + 1)[j := y], i + 1)[i := x]
  {
  }

  lemma PutSwapIndex(c: Json, i: nat, x: Json, j: nat, y: Json)
    requires i != j && (c.Null? || c.Arr?)
    ensures Put(Put(c, Index(i), x), Index(j), y) == Put(Put(c, Index(j), y), Index(i), x)
  {
    PadSwap(if c.Null? then [] else c.items, i, x, j, y);
  }

  lemma PutSwapKey(c: Json, k: string, x: Json, l: string, y: Json)
    requires k != l && (c.Null? || c.Obj?)
    ensures Put(Put(c, Key(k), x), Key(l), y) == Put(Put(c, Key(l), y), Key(k), x)
  {
    var fields := if c.Null? then map[] else c.fields;
    assert fields[k := x][l := y] == fields[l := y][k := x];
  }

  lemma PutSwap(c: Json, t: Token, x: Json, u: Token, y: Json)
    requires t != u && Fits(c, t) && Fits(c, u)
    ensures Fits(Put(c, t, x), u) <==> t.Index? == u.Index?
    ensures t.Index? == u.Index? ==> Fits(Put(c, u, y), t) && Put(Put(c, t, x), u, y) == Put(Put(c, u, y), t, x)
  {
    if t.Index? && u.Index? {
      PutSwapIndex(c, t.index, x, u.index, y);
    } else if t.Key? && u.Key? {
      PutSwapKey(c, t.key, x, u.key, y);
    }
  }

  /** What a write at `t` leaves in the slot of another token. */
  lemma SlotFrame(c: Json, t: Token, x: Json, u: Token)
    requires t != u && Fits(c, t)
    ensures Fits(Put(c, t, x), u) ==> Fits(c, u) && Slot(Put(c, t, x), u) == Slot(c, u)
  {
  }

  /** Writes at diverging paths commute: both orders give the same tree, or both fail. */
  lemma {:induction false} SetCommutes(c: Json, p: Path, v: Json, q: Path, w: Json)
    requires Diverge(p, q)
    ensures SameOutcome(SetTwice(c, p, v, q, w), SetTwice(c, q, w, p, v))
    decreases p
  {
    var t, u := p[0], q[0];
    if Fits(c, t) && Fits(c, u) {
      if t == u {
        var s := Slot(c, t);
        SetCommutes(s, p[1..], v, q[1..], w);
        SetTwiceThrough(c, p, v, q, w);
        SetTwiceThrough(c, q, w, p, v);
      } else {
        SetTwiceApart(c, p, v, q, w);
        SetTwiceApart(c, q, w, p, v);
        var a, b := Set(Slot(c, t), p[1..], v), Set(Slot(c, u), q[1..], w);
        if a.Ok? && b.Ok? {
          PutSwap(c, t, a.value, u, b.value);
        }
      }
    } else {
      ClashStays(c, p, v, q, w);
      ClashStays(c, q, w, p, v);
    }
  }

  lemma SetTwiceThrough(c: Json, p: Path, v: Json, q: Path, w: Json)
    requires p != [] && q != [] && p[0] == q[0] && Fits(c, p[0])
    ensures SetTwice(c, p, v, q, w) ==
            match SetTwice(Slot(c, p[0]), p[1..], v, q[1..], w)
            case Err(e) => Err(e)
            case Ok(z) => Ok(Put(c, p[0], z))
  {
    var s := Slot(c, p[0]);
    if Set(s, p[1..], v).Ok? {
      var x := Set(s, p[1..], v).value;
      assert Slot(Put(c, p[0], x), q[0]) == x;
      assert Fits(Put(c, p[0], x), q[0]);
      if Set(x, q[1..], w).Ok? {
        PutTwice(c, p[0], x, Set(x, q[1..], w).value);
      }
    }
  }

  lemma SetTwiceApart(c: Json, p: Path, v: Json, q: Path, w: Json)
    requires p != [] && q != [] && p[0] != q[0] && Fits(c, p[0]) && Fits(c, q[0])
    ensures var a, b := Set(Slot(c, p[0]), p[1..], v), Set(Slot(c, q[0]), q[1..], w);
            var r := SetTwice(c, p, v, q, w);
            if a.Ok? && b.Ok? && p[0].Index? == q[0].Index?
            then Fits(Put(c, p[0], a.value), q[0]) && r == Ok(Put(Put(c, p[0], a.value), q[0], b.value))
            else r.Err?
  {
    var a, b := Set(Slot(c, p[0]), p[1..], v), Set(Slot(c, q[0]), q[1..], w);
    if a.Ok? {
      PutSwap(c, p[0], a.value, q[0], Null);
      SlotFrame(c, p[0], a.value, q[0]);
    }
  }

  /** A clash at the first segment is there in both orders. */
  lemma ClashStays(c: Json, p: Path, v: Json, q: Path, w: Json)
    requires p != [] && q != [] && !(Fits(c, p[0]) && Fits(c, q[0]))
    ensures SetTwice(c, p, v, q, w).Err?
  {
  }

  // ---------------------------------------------------------------- removing

  datatype Removal = Removal(tree: Json, removed: bool)

  function WithoutIndex(items: seq<Json>, i: nat): seq<Json>
    requires i < |items|
  {
    items[..i] + items[i + 1..]
  }

  /** What `unsetConfigPath` makes of a tree. */
  function Unset(c: Json, p: Path): Result<Removal, Clash>
    decreases p
  {
    if p == [] then Ok(Removal(c, false)) else
      match Child(c, p[0])
      case Wrong(e) => Err(e)
      case Missing => Ok(Removal(c, false))
      case Found(x) =>
        if |p| == 1 then
          match p[0]
          case Index(i) => Ok(Removal(Arr(WithoutIndex(c.items, i)), true))
          case Key(k) => Ok(Removal(Obj(c.fields - {k}), true))
        else
          match Unset(x, p[1..])
          case Err(e) => Err(e)
          case Ok(Removal(y, removed)) =>
            if removed then Ok(Removal(Put(c, p[0], y), true)) else Ok(Removal(c, false))
  }

  /** A removal succeeds, finds nothing, or clashes exactly as a lookup does; and it leaves the tree alone
      unless it removed something. */
  lemma {:induction false} UnsetFollowsGet(c: Json, p: Path)
    requires p != []
    ensures match Get(c, p)
            case Found(_) => Unset(c, p).Ok? && Unset(c, p).value.removed
            case Missing => Unset(c, p) == Ok(Removal(c, false))
            case Wrong(e) => Unset(c, p) == Err(e)
    decreases p
  {
    if Child(c, p[0]).Found? {
      var x := Child(c, p[0]).value;
      if |p| > 1 {
        UnsetFollowsGet(x, p[1..]);
      } else {
        assert Get(x, p[1..]) == Found(x);
      }
    }
  }

  /** A removed key is no longer found. */
  lemma {:induction false} UnsetKeyGone(c: Json, p: Path)
    requires p != [] && p[|p| - 1].Key? && Get(c, p).Found?
    ensures Unset(c, p).Ok? && Get(Unset(c, p).value.tree, p) == Missing
    decreases p
  {
    UnsetFollowsGet(c, p);
    if |p| > 1 {
      UnsetKeyGone(Child(c, p[0]).value, p[1..]);
      UnsetFollowsGet(Child(c, p[0]).value, p[1..]);
    }
  }

  /** Whether `q` parts from `p` in such a way that removing `p` cannot move what `q` finds: not at an array
      index behind the removed one. */
  predicate Unmoved(p: Path, q: Path) {
    p != [] && q != [] &&
    if p[0] == q[0] then Unmoved(p[1..], q[1..])
    else |p| == 1 && p[0].Index? && q[0].Index? ==> q[0].index < p[0].index
  }

  lemma PutFrameAll(c: Json, t: Token, y: Json, u: Token)
    requires Child(c, t).Found? && t != u
    ensures Child(Put(c, t, y), u) == Child(c, u)
  {
  }

  /** A removal changes nothing on a diverging path, found or not, unless the path goes through an array
      element behind the removed one. */
  lemma {:induction false} UnsetFrame(c: Json, p: Path, q: Path)
    requires Unmoved(p, q) && Get(c, p).Found?
    ensures Unset(c, p).Ok? && Get(Unset(c, p).value.tree, q) == Get(c, q)
    decreases p
  {
    UnsetFollowsGet(c, p);
    var t, u := p[0], q[0];
    if |p| == 1 {
      assert t != u;
      assert Child(Unset(c, p).value.tree, u) == Child(c, u);
    } else {
      var x := Child(c, t).value;
      UnsetFollowsGet(x, p[1..]);
      if t == u {
        UnsetFrame(x, p[1..], q[1..]);
      } else {
        PutFrameAll(c, t, Unset(x, p[1..]).value.tree, u);
      }
    }
  }

  /** Removing array element `i` moves every later element one place down, with everything below it. */
  lemma {:induction false} UnsetShifts(c: Json, r: Path, i: nat, j: nat, below: Path)
    requires i <= j && Get(c, r + [Index(i)]).Found?
    ensures Unset(c, r + [Index(i)]).Ok?
    ensures Get(Unset(c, r + [Index(i)]).value.tree, r + [Index(j)] + below) == Get(c, r + [Index(j + 1)] + below)
    decreases r
  {
    var p, q, q' := r + [Index(i)], r + [Index(j)] + below, r + [Index(j + 1)] + below;
    UnsetFollowsGet(c, p);
    if r == [] {
      assert q[0] == Index(j) && q[1..] == below && q'[0] == Index(j + 1) && q'[1..] == below;
      assert Child(Unset(c, p).value.tree, Index(j)) == Child(c, Index(j + 1));
    } else {
      var x, rest := Child(c, r[0]).value, r[1..];
      assert p[0] == r[0] && p[1..] == rest + [Index(i)];
      assert q[0] == r[0] && q[1..] == rest + [Index(j)] + below;
      assert q'[0] == r[0] && q'[1..] == rest + [Index(j + 1)] + below;
      UnsetShifts(x, rest, i, j, below);
      UnsetFollowsGet(x, p[1..]);
    }
  }

  /** A place that a write would add at the end of an existing container: a fresh key of an object, or the
      position just behind the last element of an array. */
  predicate FreshIn(c: Json, t: Token) {
    match t
    case Key(k) => c.Obj? && k !in c.fields
    case Index(i) => c.Arr? && i == |c.items|
  }

  /** Removing a place that was just added restores the tree. */
  lemma {:induction false} UnsetUndoesSet(c: Json, r: Path, t: Token, v: Json)
    requires Get(c, r).Found? && FreshIn(Get(c, r).value, t)
    ensures Set(c, r + [t], v).Ok?
    ensures Unset(Set(c, r + [t], v).value, r + [t]) == Ok(Removal(c, true))
    decreases r
  {
    var p := r + [t];
    if r == [] {
      assert p[1..] == [];
      var d := Put(c, t, v);
      match t
      case Key(k) => assert d.fields - {k} == c.fields;
      case Index(i) => assert WithoutIndex(d.items, i) == c.items;
    } else {
      var x := Child(c, r[0]).value;
      assert p[0] == r[0] && p[1..] == r[1..] + [t];
      UnsetUndoesSet(x, r[1..], t, v);
      var y := Set(x, p[1..], v).value;
      PutTwice(c, p[0], y, x);
      PutBack(c, p[0], x);
    }
  }

  /** The root of a configuration document stays an object under every write and removal. */
  lemma RootStaysObject(c: Json, p: Path, v: Json)
    requires c.Obj? && p != []
    ensures Set(c, p, v).Ok? ==> Set(c, p, v).value.Obj?
    ensures Unset(c, p).Ok? ==> Unset(c, p).value.tree.Obj?
  {
  }
}
