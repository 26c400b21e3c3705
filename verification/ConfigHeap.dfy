/**
 Writing and removing places in the decoded document itself, as setConfigPath and unsetConfigPath of
 cmd/anyclaw/config_cli.go do: maps are references, a slice is a stretch of a backing array with room for
 more, and both functions write into what they find. `Tree` ties a value in memory to the JSON tree it
 denotes; no two of its parts share a map or an array, as decoding makes them.
 */
module ConfigHeap {
  import opened ConfigLens
  import opened ConfigPath
  import opened Wrappers

  type Loc = nat

  /** A Go value: null and the scalars stand for themselves. */
  datatype Val = Leaf(json: Json) | MapAt(loc: Loc) | SliceAt(loc: Loc, len: nat)

  /** A map, or a backing array of which slices show a first part. */
  datatype Cell = Entries(entries: map<string, Val>) | Backing(slots: seq<Val>)

  type Cells = map<Loc, Cell>

  const NIL: Val := Leaf(Null)

  predicate Owns(v: Val, l: Loc) {
    !v.Leaf? && v.loc == l
  }

  /** What indexing a value with a token yields; nil where there is nothing. */
  function Kid(cells: Cells, v: Val, t: Token): Val {
    match t
    case Index(i) =>
      if v.SliceAt? && v.loc in cells && cells[v.loc].Backing? && i < v.len <= |cells[v.loc].slots|
      then cells[v.loc].slots[i] else NIL
    case Key(k) =>
      if v.MapAt? && v.loc in cells && cells[v.loc].Entries? && k in cells[v.loc].entries
      then cells[v.loc].entries[k] else NIL
  }

  /** The value is of the tree's kind and has a child wherever the tree has one. */
  predicate HeadFits(cells: Cells, v: Val, j: Json) {
    match j
    case Arr(items) =>
      && v.SliceAt? && v.loc in cells && cells[v.loc].Backing?
      && v.len == |items| <= |cells[v.loc].slots|
    case Obj(fields) =>
      && v.MapAt? && v.loc in cells && cells[v.loc].Entries? && cells[v.loc].entries.Keys == fields.Keys
    case _ => v == Leaf(j)
  }

  /** Location `l` belongs to the value that denotes `j`. */
  ghost predicate Reaches(cells: Cells, v: Val, j: Json, l: Loc)
    decreases j, 1
  {
    Owns(v, l) || exists t :: KidReaches(cells, v, j, t, l)
  }

  ghost predicate KidReaches(cells: Cells, v: Val, j: Json, t: Token, l: Loc)
    decreases j, 0
  {
    Child(j, t).Found? && Reaches(cells, Kid(cells, v, t), Child(j, t).value, l)
  }

  ghost predicate Tree(cells: Cells, v: Val, j: Json)
    decreases j
  {
    && HeadFits(cells, v, j)
    && (forall t :: Child(j, t).Found? ==> Tree(cells, Kid(cells, v, t), Child(j, t).value))
    && (forall t, l :: KidReaches(cells, v, j, t, l) ==> !Owns(v, l))
    && (forall t, u, l :: KidReaches(cells, v, j, t, l) && KidReaches(cells, v, j, u, l) ==> t == u)
  }

  // ---------------------------------------------------------------- what stays the same

  lemma ReachingKid(cells: Cells, v: Val, j: Json, l: Loc) returns (t: Token)
    requires Reaches(cells, v, j, l) && !Owns(v, l)
    ensures KidReaches(cells, v, j, t, l)
  {
    t :| KidReaches(cells, v, j, t, l);
  }

  /** What belongs to the value is there. */
  lemma {:induction false} ReachesCells(cells: Cells, v: Val, j: Json, l: Loc)
    requires Tree(cells, v, j) && Reaches(cells, v, j, l)
    ensures l in cells
    decreases j
  {
    if !Owns(v, l) {
      var t :| KidReaches(cells, v, j, t, l);
      ReachesCells(cells, Kid(cells, v, t), Child(j, t).value, l);
    }
  }

  /** Everything that belongs to the value is as it was. */
  ghost predicate Untouched(before: Cells, after: Cells, v: Val, j: Json) {
    forall l :: Reaches(before, v, j, l) ==> l in before && l in after && after[l] == before[l]
  }

  lemma KidUntouched(before: Cells, after: Cells, v: Val, j: Json, t: Token)
    requires Untouched(before, after, v, j) && Child(j, t).Found?
    ensures Untouched(before, after, Kid(before, v, t), Child(j, t).value)
  {
    forall l | Reaches(before, Kid(before, v, t), Child(j, t).value, l)
      ensures l in before && l in after && after[l] == before[l]
    {
      assert KidReaches(before, v, j, t, l);
      assert Reaches(before, v, j, l);
    }
  }

  lemma SameKids(before: Cells, after: Cells, v: Val, j: Json)
    requires Untouched(before, after, v, j) && HeadFits(before, v, j)
    ensures HeadFits(after, v, j)
    ensures forall t :: Child(j, t).Found? ==> Kid(after, v, t) == Kid(before, v, t)
  {
    if !v.Leaf? {
      assert Reaches(before, v, j, v.loc);
    }
  }

  /** A value denotes the same tree as long as nothing that belongs to it is touched. */
  lemma {:induction false} Frame(before: Cells, after: Cells, v: Val, j: Json)
    requires Tree(before, v, j) && Untouched(before, after, v, j)
    ensures Tree(after, v, j)
    ensures forall l :: Reaches(after, v, j, l) <==> Reaches(before, v, j, l)
    decreases j
  {
    SameKids(before, after, v, j);
    forall t | Child(j, t).Found?
      ensures Tree(after, Kid(after, v, t), Child(j, t).value)
      ensures forall l :: KidReaches(after, v, j, t, l) <==> KidReaches(before, v, j, t, l)
    {
      KidUntouched(before, after, v, j, t);
      Frame(before, after, Kid(before, v, t), Child(j, t).value);
    }
    assert forall t, l :: KidReaches(after, v, j, t, l) <==> KidReaches(before, v, j, t, l);
  }

  // ---------------------------------------------------------------- one container changes

  /** All cells but one are as they were; that one is the value's own, or new. */
  ghost predicate OneCell(before: Cells, after: Cells, v: Val, l: Loc) {
    && (Owns(v, l) || l !in before)
    && (forall k :: k in before && k != l ==> k in after && after[k] == before[k])
  }

  /** Where the children of a container come from when it is rearranged: from a child of the old one, each
      from another, or from nowhere, and then they are null. */
  ghost predicate Moves(before: Cells, after: Cells, v: Val, j: Json, w: Val, k: Json, from: Token -> Option<Token>) {
    && (forall t :: Child(k, t).Found? ==>
          match from(t)
          case None => Child(k, t) == Found(Null) && Kid(after, w, t) == NIL
          case Some(s) => Child(j, s) == Child(k, t) && Kid(after, w, t) == Kid(before, v, s))
    && (forall t, u :: Child(k, t).Found? && Child(k, u).Found? && from(t).Some? && from(t) == from(u) ==> t == u)
  }

  lemma MovedKid(before: Cells, after: Cells, v: Val, j: Json, w: Val, k: Json, from: Token -> Option<Token>, t: Token)
    requires Tree(before, v, j) && !w.Leaf? && OneCell(before, after, v, w.loc)
    requires Moves(before, after, v, j, w, k, from) && Child(k, t).Found?
    ensures Tree(after, Kid(after, w, t), Child(k, t).value)
    ensures forall l :: KidReaches(after, w, k, t, l) ==>
              from(t).Some? && KidReaches(before, v, j, from(t).value, l) && l != w.loc
  {
    if from(t).Some? {
      var s := from(t).value;
      var kid, child := Kid(before, v, s), Child(j, s).value;
      forall l | Reaches(before, kid, child, l)
        ensures l in before && l != w.loc && l in after && after[l] == before[l]
      {
        assert KidReaches(before, v, j, s, l);
        ReachesCells(before, kid, child, l);
      }
      Frame(before, after, kid, child);
    }
  }

  /** Rearranging the children of a container, in place or into a new one. */
  lemma Rearranged(before: Cells, after: Cells, v: Val, j: Json, w: Val, k: Json, from: Token -> Option<Token>)
    requires Tree(before, v, j) && !w.Leaf? && OneCell(before, after, v, w.loc)
    requires HeadFits(after, w, k) && Moves(before, after, v, j, w, k, from)
    ensures Tree(after, w, k)
    ensures forall l :: Reaches(after, w, k, l) ==> Reaches(before, v, j, l) || l == w.loc
  {
    forall t | Child(k, t).Found?
      ensures Tree(after, Kid(after, w, t), Child(k, t).value)
      ensures forall l :: KidReaches(after, w, k, t, l) ==>
                from(t).Some? && KidReaches(before, v, j, from(t).value, l) && l != w.loc
    {
      MovedKid(before, after, v, j, w, k, from, t);
    }
    forall t, u, l | KidReaches(after, w, k, t, l) && KidReaches(after, w, k, u, l)
      ensures t == u
    {
      assert KidReaches(before, v, j, from(t).value, l) && KidReaches(before, v, j, from(u).value, l);
    }
    forall l | Reaches(after, w, k, l)
      ensures Reaches(before, v, j, l) || l == w.loc
    {
      if !Owns(w, l) {
        var t := ReachingKid(after, w, k, l);
        assert KidReaches(before, v, j, from(t).value, l);
      }
    }
  }

  // ---------------------------------------------------------------- one child is replaced

  /** The cells a write at a child may touch: those that belong to the child, and new ones. */
  ghost predicate Within(before: Cells, after: Cells, kid: Val, child: Json) {
    forall l :: l in before && !Reaches(before, kid, child, l) ==> l in after && after[l] == before[l]
  }

  /** Everything that belongs to the value belonged to one of two before, or is new. */
  ghost predicate MadeOf(before: Cells, after: Cells, w: Val, k: Json, v: Val, j: Json, x: Val, jx: Json) {
    forall l :: Reaches(after, w, k, l) ==> Reaches(before, v, j, l) || Reaches(before, x, jx, l) || l !in before
  }

  ghost predicate Apart(cells: Cells, v: Val, j: Json, x: Val, jx: Json) {
    forall l :: !(Reaches(cells, v, j, l) && Reaches(cells, x, jx, l))
  }

  /** The tree's value at a token, null where there is none, and what the child there denotes. */
  lemma SlotKid(cells: Cells, v: Val, j: Json, t: Token)
    requires Tree(cells, v, j)
    ensures Tree(cells, Kid(cells, v, t), Slot(j, t))
    ensures Child(j, t).Found? ==> Slot(j, t) == Child(j, t).value
    ensures forall l :: Reaches(cells, Kid(cells, v, t), Slot(j, t), l) <==> KidReaches(cells, v, j, t, l)
  {
    if !Child(j, t).Found? {
      assert Kid(cells, v, t) == NIL;
    }
  }

  /** What another child denotes after the write at `t` and the update of the container's own cell. */
  lemma OtherKid(before: Cells, mid: Cells, after: Cells, v: Val, j: Json, t: Token, u: Token)
    requires Tree(before, v, j) && !v.Leaf? && u != t && Child(j, u).Found?
    requires Within(before, mid, Kid(before, v, t), Slot(j, t))
    requires forall l :: l in mid && l != v.loc ==> l in after && after[l] == mid[l]
    ensures Tree(after, Kid(before, v, u), Child(j, u).value)
    ensures forall l :: Reaches(after, Kid(before, v, u), Child(j, u).value, l) <==> KidReaches(before, v, j, u, l)
  {
    var kid, child := Kid(before, v, u), Child(j, u).value;
    SlotKid(before, v, j, t);
    forall l | Reaches(before, kid, child, l)
      ensures l in before && l in after && after[l] == before[l]
    {
      assert KidReaches(before, v, j, u, l);
      ReachesCells(before, kid, child, l);
    }
    Frame(before, after, kid, child);
  }

  /** What the new child is made of. */
  lemma NewKidMadeOf(before: Cells, mid: Cells, v: Val, j: Json, t: Token, x: Val, jx: Json, next: Val, k: Json, l: Loc)
    requires Tree(before, v, j) && !v.Leaf? && v.loc in before
    requires Apart(before, v, j, x, jx) && MadeOf(before, mid, next, k, Kid(before, v, t), Slot(j, t), x, jx)
    requires Reaches(mid, next, k, l)
    ensures l != v.loc && (KidReaches(before, v, j, t, l) || Reaches(before, x, jx, l) || l !in before)
  {
    SlotKid(before, v, j, t);
    assert Reaches(before, v, j, v.loc);
  }

  /** The new child denotes the same after the container's own cell has been updated. */
  lemma NewKid(mid: Cells, after: Cells, own: Loc, next: Val, k: Json)
    requires Tree(mid, next, k) && !Reaches(mid, next, k, own)
    requires forall l :: l in mid && l != own ==> l in after && after[l] == mid[l]
    ensures Tree(after, next, k)
    ensures forall l :: Reaches(after, next, k, l) <==> Reaches(mid, next, k, l)
  {
    forall l | Reaches(mid, next, k, l)
      ensures l in mid && l in after && after[l] == mid[l]
    {
      ReachesCells(mid, next, k, l);
    }
    Frame(mid, after, next, k);
  }

  /** The container's own cell now has `next` as its child at `t` and is otherwise as it was. */
  ghost predicate Placed(before: Cells, mid: Cells, after: Cells, v: Val, j: Json, t: Token, next: Val, k: Json) {
    && !v.Leaf? && v.loc in before && Fits(j, t) && HeadFits(after, v, Put(j, t, k))
    && (forall l :: l in mid && l != v.loc ==> l in after && after[l] == mid[l])
    && Kid(after, v, t) == next
    && (forall u :: u != t && Child(Put(j, t, k), u).Found? ==>
          Child(j, u) == Child(Put(j, t, k), u) && Kid(after, v, u) == Kid(before, v, u))
  }

  /** Replacing one child of a container by what a write below has made of it. */
  lemma Replaced(before: Cells, mid: Cells, after: Cells, v: Val, j: Json, t: Token, x: Val, jx: Json, next: Val, k: Json)
    requires Tree(before, v, j) && Tree(mid, next, k) && Apart(before, v, j, x, jx)
    requires Within(before, mid, Kid(before, v, t), Slot(j, t))
    requires MadeOf(before, mid, next, k, Kid(before, v, t), Slot(j, t), x, jx)
    requires Placed(before, mid, after, v, j, t, next, k)
    ensures Tree(after, v, Put(j, t, k))
    ensures MadeOf(before, after, v, Put(j, t, k), v, j, x, jx)
  {
    var jj := Put(j, t, k);
    forall l | Reaches(mid, next, k, l)
      ensures l != v.loc && (KidReaches(before, v, j, t, l) || Reaches(before, x, jx, l) || l !in before)
    {
      NewKidMadeOf(before, mid, v, j, t, x, jx, next, k, l);
    }
    NewKid(mid, after, v.loc, next, k);
    ReplacedKids(before, mid, after, v, j, t, x, jx, next, k);
    ReplacedApart(before, after, v, j, t, x, jx, jj);
  }

  /** Where what belongs to a child of the new container comes from. */
  ghost predicate ComesFrom(before: Cells, v: Val, j: Json, t: Token, x: Val, jx: Json, u: Token, l: Loc) {
    if u == t then KidReaches(before, v, j, t, l) || Reaches(before, x, jx, l) || l !in before
    else KidReaches(before, v, j, u, l)
  }

  ghost predicate KidsAreTrees(before: Cells, after: Cells, v: Val, j: Json, t: Token, x: Val, jx: Json, jj: Json) {
    && (forall u :: Child(jj, u).Found? ==> Tree(after, Kid(after, v, u), Child(jj, u).value))
    && (forall u, l :: KidReaches(after, v, jj, u, l) ==> !Owns(v, l) && ComesFrom(before, v, j, t, x, jx, u, l))
  }

  lemma ReplacedKid(before: Cells, mid: Cells, after: Cells, v: Val, j: Json, t: Token, x: Val, jx: Json,
                    next: Val, k: Json, u: Token)
    requires Tree(before, v, j) && Tree(after, next, k)
    requires Within(before, mid, Kid(before, v, t), Slot(j, t))
    requires Placed(before, mid, after, v, j, t, next, k) && Child(Put(j, t, k), u).Found?
    requires forall l :: Reaches(after, next, k, l) ==> l != v.loc && ComesFrom(before, v, j, t, x, jx, t, l)
    ensures Tree(after, Kid(after, v, u), Child(Put(j, t, k), u).value)
    ensures forall l :: KidReaches(after, v, Put(j, t, k), u, l) ==>
              l != v.loc && ComesFrom(before, v, j, t, x, jx, u, l)
  {
    hide HeadFits;
    if u != t {
      OtherKid(before, mid, after, v, j, t, u);
    }
  }

  lemma ReplacedKids(before: Cells, mid: Cells, after: Cells, v: Val, j: Json, t: Token, x: Val, jx: Json, next: Val, k: Json)
    requires Tree(before, v, j) && Tree(after, next, k)
    requires Within(before, mid, Kid(before, v, t), Slot(j, t))
    requires Placed(before, mid, after, v, j, t, next, k)
    requires forall l :: Reaches(after, next, k, l) ==> l != v.loc && ComesFrom(before, v, j, t, x, jx, t, l)
    ensures KidsAreTrees(before, after, v, j, t, x, jx, Put(j, t, k))
  {
    hide Tree, Reaches, Slot, Put, Within, HeadFits, Kid, ComesFrom;
    var jj := Put(j, t, k);
    forall u | Child(jj, u).Found?
      ensures Tree(after, Kid(after, v, u), Child(jj, u).value)
      ensures forall l :: KidReaches(after, v, jj, u, l) ==> l != v.loc && ComesFrom(before, v, j, t, x, jx, u, l)
    {
      ReplacedKid(before, mid, after, v, j, t, x, jx, next, k, u);
    }
  }

  lemma ReplacedApart(before: Cells, after: Cells, v: Val, j: Json, t: Token, x: Val, jx: Json, jj: Json)
    requires Tree(before, v, j) && Apart(before, v, j, x, jx) && !v.Leaf? && v.loc in before && HeadFits(after, v, jj)
    requires KidsAreTrees(before, after, v, j, t, x, jx, jj)
    ensures Tree(after, v, jj) && MadeOf(before, after, v, jj, v, j, x, jx)
  {
    forall u, w, l | KidReaches(after, v, jj, u, l) && KidReaches(after, v, jj, w, l)
      ensures u == w
    {
      KidBelongs(before, v, j, u, l);
      KidBelongs(before, v, j, w, l);
      assert ComesFrom(before, v, j, t, x, jx, u, l) && ComesFrom(before, v, j, t, x, jx, w, l);
    }
    forall l | Reaches(after, v, jj, l)
      ensures Reaches(before, v, j, l) || Reaches(before, x, jx, l) || l !in before
    {
      if !Owns(v, l) {
        var u := ReachingKid(after, v, jj, l);
        KidBelongs(before, v, j, u, l);
        assert ComesFrom(before, v, j, t, x, jx, u, l);
      }
    }
  }

  lemma KidBelongs(cells: Cells, v: Val, j: Json, t: Token, l: Loc)
    requires Tree(cells, v, j)
    ensures KidReaches(cells, v, j, t, l) ==> l in cells && Reaches(cells, v, j, l)
  {
    if KidReaches(cells, v, j, t, l) {
      ReachesCells(cells, v, j, l);
    }
  }

  // ---------------------------------------------------------------- making room

  /** The container a write goes into: made where there is none, and long enough. */
  function Roomy(j: Json, t: Token): Json
    requires Fits(j, t)
  {
    match t
    case Index(i) => Arr(Pad(if j.Null? then [] else j.items, i + 1))
    case Key(_) => if j.Null? then Obj(map[]) else j
  }

  lemma RoomySlot(j: Json, t: Token, x: Json)
    requires Fits(j, t)
    ensures Fits(Roomy(j, t), t) && Slot(Roomy(j, t), t) == Slot(j, t) && Put(Roomy(j, t), t, x) == Put(j, t, x)
    ensures Child(j, t).Found? ==> Roomy(j, t) == j
  {
    if t.Index? {
      var items := if j.Null? then [] else j.items;
      var i := t.index;
      assert Pad(Pad(items, i + 1), i + 1) == Pad(items, i + 1);
    }
  }

  /** `w` has grown out of `v`: nothing but the cell of `v` has been touched. */
  ghost predicate Grown(before: Cells, after: Cells, v: Val, j: Json, w: Val, k: Json) {
    && (forall l :: l in before && !Owns(v, l) ==> l in after && after[l] == before[l])
    && (forall l :: l in before ==> l in after)
    && (forall l :: Reaches(after, w, k, l) ==> Reaches(before, v, j, l) || l !in before)
    && (forall l :: Owns(w, l) ==> Owns(v, l) || l !in before)
  }

  /** One null more at the end of a slice. */
  lemma OneMore(before: Cells, after: Cells, v: Val, items: seq<Json>, w: Val)
    requires Tree(before, v, Arr(items)) && w.SliceAt? && w.len == |items| + 1
    requires OneCell(before, after, v, w.loc) && HeadFits(after, w, Arr(items + [Null]))
    requires forall i :: 0 <= i < |items| ==> after[w.loc].slots[i] == before[v.loc].slots[i]
    requires after[w.loc].slots[|items|] == NIL
    ensures Tree(after, w, Arr(items + [Null]))
    ensures forall l :: Reaches(after, w, Arr(items + [Null]), l) ==> Reaches(before, v, Arr(items), l) || l == w.loc
  {
    var from := (t: Token) => if t.Index? && t.index < |items| then Some(t) else None;
    Rearranged(before, after, v, Arr(items), w, Arr(items + [Null]), from);
  }

  lemma GrownTwice(start: Cells, before: Cells, after: Cells, v: Val, j: Json, u: Val, k: Json, w: Val, m: Json)
    requires Grown(start, before, v, j, u, k) && Grown(before, after, u, k, w, m)
    ensures Grown(start, after, v, j, w, m)
  {
    hide Reaches;
  }

  lemma GrownNot(cells: Cells, v: Val, j: Json)
    ensures Grown(cells, cells, v, j, v, j)
  {
    hide Reaches;
  }

  /** A new container without children. */
  lemma EmptyIsTree(before: Cells, after: Cells, w: Val, k: Json)
    requires (k == Arr([]) && w.SliceAt?) || (k == Obj(map[]) && w.MapAt?)
    requires HeadFits(after, w, k) && w.loc !in before && forall l :: l in before ==> l in after && after[l] == before[l]
    ensures Tree(after, w, k) && Grown(before, after, NIL, Null, w, k)
  {
    assert forall t :: !Child(k, t).Found?;
  }

  lemma HeadOfTree(cells: Cells, v: Val, j: Json)
    requires Tree(cells, v, j)
    ensures HeadFits(cells, v, j)
  {
  }

  // ---------------------------------------------------------------- putting a write together

  /** A write below the container that `w` is, after room has been made there, is a write of the whole. */
  lemma WriteBelow(start: Cells, before: Cells, mid: Cells, after: Cells, v: Val, j: Json, w: Val, t: Token,
                   x: Val, jx: Json, next: Val, k: Json)
    requires Fits(j, t) && Tree(before, w, Roomy(j, t)) && Grown(start, before, v, j, w, Roomy(j, t))
    requires Tree(start, x, jx) && Apart(start, v, j, x, jx) && Tree(mid, next, k)
    requires Within(before, mid, Kid(before, w, t), Slot(j, t))
    requires MadeOf(before, mid, next, k, Kid(before, w, t), Slot(j, t), x, jx)
    requires Placed(before, mid, after, w, Roomy(j, t), t, next, k)
    ensures Tree(after, w, Put(j, t, k))
    ensures MadeOf(start, after, w, Put(j, t, k), v, j, x, jx)
    ensures Within(start, after, v, j)
  {
    hide Tree, Reaches, Roomy, Kid, Slot, Put, Grown, MadeOf, Apart, Placed;
    var jw := Roomy(j, t);
    RoomySlot(j, t, k);
    StillApart(start, before, v, j, w, jw, x, jx);
    Replaced(before, mid, after, w, jw, t, x, jx, next, k);
    GrownMadeOf(start, before, after, v, j, w, jw, x, jx, Put(j, t, k));
    forall l | l in start && !Reaches(start, v, j, l)
      ensures l in after && after[l] == start[l]
    {
      OutsideStays(start, before, mid, after, v, j, w, t, next, k, l);
    }
  }

  lemma GrownMadeOf(start: Cells, before: Cells, after: Cells, v: Val, j: Json, w: Val, jw: Json,
                    x: Val, jx: Json, k: Json)
    requires Grown(start, before, v, j, w, jw) && MadeOf(before, after, w, k, w, jw, x, jx)
    requires forall l :: Reaches(before, x, jx, l) <==> Reaches(start, x, jx, l)
    ensures MadeOf(start, after, w, k, v, j, x, jx)
  {
    hide Reaches;
  }

  lemma OutsideStays(start: Cells, before: Cells, mid: Cells, after: Cells, v: Val, j: Json, w: Val, t: Token,
                     next: Val, k: Json, l: Loc)
    requires Fits(j, t) && Tree(before, w, Roomy(j, t)) && Grown(start, before, v, j, w, Roomy(j, t))
    requires Within(before, mid, Kid(before, w, t), Slot(j, t))
    requires Placed(before, mid, after, w, Roomy(j, t), t, next, k)
    requires l in start && !Reaches(start, v, j, l)
    ensures l in after && after[l] == start[l]
  {
    RoomySlot(j, t, k);
    assert !Owns(v, l) && !Owns(w, l);
    SlotKid(before, w, Roomy(j, t), t);
    KidBelongs(before, w, Roomy(j, t), t, l);
    assert !Reaches(before, Kid(before, w, t), Slot(j, t), l);
  }

  /** A write below a child leaves the container's own cell alone. */
  lemma OwnCell(before: Cells, mid: Cells, w: Val, k: Json, t: Token)
    requires Tree(before, w, k) && !w.Leaf? && w.loc in before && Within(before, mid, Kid(before, w, t), Slot(k, t))
    ensures w.loc in mid && mid[w.loc] == before[w.loc]
  {
    SlotKid(before, w, k, t);
    assert !KidReaches(before, w, k, t, w.loc);
  }

  lemma IndexPlaced(before: Cells, mid: Cells, after: Cells, w: Val, items: seq<Json>, i: nat, next: Val, k: Json)
    requires i < |items| && HeadFits(before, w, Arr(items))
    requires w.loc in mid && mid[w.loc] == before[w.loc]
    requires after == mid[w.loc := Backing(mid[w.loc].slots[i := next])]
    ensures Placed(before, mid, after, w, Arr(items), Index(i), next, k)
  {
    assert Put(Arr(items), Index(i), k) == Arr(items[i := k]);
  }

  lemma KeyPlaced(before: Cells, mid: Cells, after: Cells, w: Val, fields: map<string, Json>, key: string,
                  next: Val, k: Json)
    requires HeadFits(before, w, Obj(fields))
    requires w.loc in mid && mid[w.loc] == before[w.loc]
    requires after == mid[w.loc := Entries(mid[w.loc].entries[key := next])]
    ensures Placed(before, mid, after, w, Obj(fields), Key(key), next, k)
  {
  }

  /** A write fails only below a child that is there: where there is none, everything can be made. */
  lemma FailsBelow(j: Json, t: Token, p: Path, x: Json)
    requires ConfigLens.Set(Slot(j, t), p, x).Err?
    ensures Child(j, t).Found?
  {
    SetInNull(p, x);
  }

  /** The value to be written is untouched by making room, and still apart. */
  lemma StillApart(start: Cells, before: Cells, v: Val, j: Json, w: Val, k: Json, x: Val, jx: Json)
    requires Grown(start, before, v, j, w, k) && Tree(start, x, jx) && Apart(start, v, j, x, jx)
    ensures Tree(before, x, jx) && Apart(before, w, k, x, jx)
    ensures forall l :: Reaches(before, x, jx, l) <==> Reaches(start, x, jx, l)
  {
    forall l | Reaches(start, x, jx, l)
      ensures l in start && l in before && before[l] == start[l]
    {
      ReachesCells(start, x, jx, l);
      assert !Reaches(start, v, j, l);
      assert !Owns(v, l);
    }
    Frame(start, before, x, jx);
  }

  lemma WithinNot(cells: Cells, v: Val, j: Json)
    ensures Within(cells, cells, v, j)
  {
  }

  lemma MadeOfItself(cells: Cells, v: Val, j: Json, x: Val, jx: Json)
    ensures MadeOf(cells, cells, x, jx, v, j, x, jx)
  {
  }

  lemma RoomIsThere(cells: Cells, w: Val, j: Json, t: Token)
    requires Fits(j, t) && Tree(cells, w, Roomy(j, t))
    ensures var jw := Roomy(j, t);
            && !w.Leaf? && w.loc in cells && Fits(jw, t) && !jw.Null? && (t.Index? ==> t.index < |jw.items|)
            && Slot(jw, t) == Slot(j, t)
  {
    RoomySlot(j, t, Null);
  }

  lemma KidApart(cells: Cells, w: Val, k: Json, t: Token, x: Val, jx: Json)
    requires Tree(cells, w, k) && Apart(cells, w, k, x, jx)
    ensures Tree(cells, Kid(cells, w, t), Slot(k, t)) && Apart(cells, Kid(cells, w, t), Slot(k, t), x, jx)
  {
    SlotKid(cells, w, k, t);
    forall l
      ensures !(Reaches(cells, Kid(cells, w, t), Slot(k, t), l) && Reaches(cells, x, jx, l))
    {
      KidBelongs(cells, w, k, t, l);
    }
  }

  /** What is left is made of what there was. */
  lemma MadeOfOld(cells: Cells, v: Val, j: Json)
    ensures MadeOf(cells, cells, v, j, v, j, NIL, Null)
  {
  }

  lemma ChildIsThere(cells: Cells, v: Val, j: Json, t: Token)
    requires Tree(cells, v, j) && Child(j, t).Found?
    ensures !v.Leaf? && v.loc in cells && Fits(j, t) && !j.Null? && Roomy(j, t) == j && Slot(j, t) == Child(j, t).value
    ensures Tree(cells, Kid(cells, v, t), Child(j, t).value) && Grown(cells, cells, v, j, v, j)
    ensures Tree(cells, NIL, Null) && Apart(cells, v, j, NIL, Null)
  {
    GrownNot(cells, v, j);
    RoomySlot(j, t, Null);
  }

  lemma IndexRemoved(before: Cells, after: Cells, v: Val, items: seq<Json>, i: nat)
    requires Tree(before, v, Arr(items)) && i < |items|
    requires var slots := before[v.loc].slots;
             after == before[v.loc := Backing(slots[..i] + slots[i + 1..v.len] + slots[v.len - 1..])]
    ensures var w, k := SliceAt(v.loc, v.len - 1), Arr(WithoutIndex(items, i));
            && Within(before, after, v, Arr(items)) && Tree(after, w, k)
            && MadeOf(before, after, w, k, v, Arr(items), NIL, Null)
  {
    var from := (t: Token) => if t.Index? then Some(Index(if t.index < i then t.index else t.index + 1)) else None;
    Rearranged(before, after, v, Arr(items), SliceAt(v.loc, v.len - 1), Arr(WithoutIndex(items, i)), from);
    assert Reaches(before, v, Arr(items), v.loc);
  }

  lemma KeyRemoved(before: Cells, after: Cells, v: Val, fields: map<string, Json>, key: string)
    requires Tree(before, v, Obj(fields)) && key in fields
    requires after == before[v.loc := Entries(before[v.loc].entries - {key})]
    ensures Within(before, after, v, Obj(fields)) && Tree(after, v, Obj(fields - {key}))
    ensures MadeOf(before, after, v, Obj(fields - {key}), v, Obj(fields), NIL, Null)
  {
    Rearranged(before, after, v, Obj(fields), v, Obj(fields - {key}), t => Some(t));
    assert Reaches(before, v, Obj(fields), v.loc);
  }

  class Document {
    var cells: Cells
    /** Where the next map or array goes. */
    var free: Loc

    ghost predicate Valid()
      reads this
    {
      forall l :: l in cells ==> l < free
    }

    constructor ()
      ensures Valid() && cells == map[]
    {
      cells := map[];
      free := 0;
    }

    method Allocate(cell: Cell) returns (l: Loc)
      requires Valid()
      modifies this
      ensures Valid() && l !in old(cells) && cells == old(cells)[l := cell]
    {
      l := free;
      cells := cells[l := cell];
      free := free + 1;
    }

    /** `append(items, nil)`: in place while the backing array has room, else in a new one. */
    method AppendNil(v: Val, ghost items: seq<Json>) returns (w: Val)
      requires Valid() && Tree(cells, v, Arr(items))
      modifies this
      ensures Valid() && Tree(cells, w, Arr(items + [Null]))
      ensures Grown(old(cells), cells, v, Arr(items), w, Arr(items + [Null]))
    {
      var slots := cells[v.loc].slots;
      if v.len < |slots| {
        cells := cells[v.loc := Backing(slots[v.len := NIL])];
        w := SliceAt(v.loc, v.len + 1);
      } else {
        var spare :| spare >= 0;
        var l := Allocate(Backing(slots[..v.len] + [NIL] + seq(spare, _ => NIL)));
        w := SliceAt(l, v.len + 1);
      }
      OneMore(old(cells), cells, v, items, w);
      assert Reaches(old(cells), v, Arr(items), v.loc);
    }

    /** The start of `setConfigPath`: the container at hand, or a new one; an array is padded in a loop. */
    method MakeRoom(v: Val, t: Token, ghost j: Json) returns (w: Val)
      requires Valid() && Tree(cells, v, j) && Fits(j, t)
      modifies this
      ensures Valid() && Tree(cells, w, Roomy(j, t)) && Grown(old(cells), cells, v, j, w, Roomy(j, t))
      ensures Child(j, t).Found? ==> w == v && cells == old(cells)
      ensures v.MapAt? ==> w == v
    {
      hide Tree, Grown, Reaches;
      HeadOfTree(cells, v, j);
      if v == NIL {
        w := NewContainer(t);
      } else {
        w := v;
        GrownNot(cells, v, j);
      }
      match t
      case Key(_) =>
      case Index(i) =>
        ghost var mid, u := cells, w;
        ghost var items: seq<Json> := if j.Null? then [] else j.items;
        w := PadSlice(w, i, items);
        GrownTwice(old(cells), mid, cells, v, j, u, Arr(items), w, Arr(Pad(items, i + 1)));
    }

    method NewContainer(t: Token) returns (w: Val)
      requires Valid()
      modifies this
      ensures var k := if t.Index? then Arr([]) else Obj(map[]);
              Valid() && Tree(cells, w, k) && Grown(old(cells), cells, NIL, Null, w, k)
      ensures w == if t.Index? then SliceAt(w.loc, 0) else MapAt(w.loc)
    {
      hide Tree, Grown, Reaches;
      var l := Allocate(if t.Index? then Backing([]) else Entries(map[]));
      w := if t.Index? then SliceAt(l, 0) else MapAt(l);
      EmptyIsTree(old(cells), cells, w, if t.Index? then Arr([]) else Obj(map[]));
    }

    method PadSlice(v: Val, i: nat, ghost items: seq<Json>) returns (w: Val)
      requires Valid() && Tree(cells, v, Arr(items))
      modifies this
      ensures Valid() && Tree(cells, w, Arr(Pad(items, i + 1)))
      ensures Grown(old(cells), cells, v, Arr(items), w, Arr(Pad(items, i + 1)))
      ensures i < |items| ==> w == v && cells == old(cells)
    {
      w := v;
      ghost var now := items;
      while w.len <= i
        invariant Valid() && w.SliceAt? && w.len == |now| && now == Pad(items, |now|)
        invariant |items| <= |now| && (|now| > |items| ==> |now| <= i + 1)
        invariant Tree(cells, w, Arr(now)) && Grown(old(cells), cells, v, Arr(items), w, Arr(now))
        invariant |now| == |items| ==> w == v && cells == old(cells) && now == items
        decreases i + 1 - w.len
      {
        w := AppendNil(w, now);
        now := now + [Null];
      }
      assert now == Pad(items, i + 1);
    }

    /** The assignment to an element of the container. */
    method Place(w: Val, t: Token, next: Val, ghost before: Cells, ghost jw: Json, ghost k: Json)
      requires Valid() && Tree(before, w, jw) && !w.Leaf? && w.loc in before && Fits(jw, t) && !jw.Null?
      requires t.Index? ==> t.index < |jw.items|
      requires Within(before, cells, Kid(before, w, t), Slot(jw, t))
      modifies this
      ensures Valid() && Placed(before, old(cells), cells, w, jw, t, next, k)
    {
      hide Tree, Reaches, Within, Placed;
      OwnCell(before, cells, w, jw, t);
      HeadOfTree(before, w, jw);
      match t
      case Index(i) =>
        cells := cells[w.loc := Backing(cells[w.loc].slots[i := next])];
        IndexPlaced(before, old(cells), cells, w, jw.items, i, next, k);
      case Key(key) =>
        cells := cells[w.loc := Entries(cells[w.loc].entries[key := next])];
        KeyPlaced(before, old(cells), cells, w, jw.fields, key, next, k);
    }

    /** `setConfigPath` on the document itself. A write that fails has touched nothing; one that succeeds
        has turned the old value into the new one, touching only what belonged to it, and into the same map
        if it was one. */
    method SetConfigPath(current: Val, tokens: Path, value: Val, ghost j: Json, ghost jx: Json)
      returns (r: Result<Val, Clash>)
      requires Valid() && Tree(cells, current, j) && Tree(cells, value, jx) && Apart(cells, current, j, value, jx)
      modifies this
      ensures Valid() && Within(old(cells), cells, current, j)
      ensures match ConfigLens.Set(j, tokens, jx)
              case Err(e) => r == Err(e) && cells == old(cells)
              case Ok(k) =>
                && r.Ok? && Tree(cells, r.value, k)
                && MadeOf(old(cells), cells, r.value, k, current, j, value, jx)
                && (current.MapAt? && tokens != [] ==> r.value == current)
      decreases tokens
    {
      hide Tree, Reaches, Grown, Within, MadeOf, Apart, Placed, Roomy, Kid, Slot;
      WithinNot(cells, current, j);
      MadeOfItself(cells, current, j, value, jx);
      if tokens == [] {
        return Ok(value);
      }
      var t := tokens[0];
      HeadOfTree(cells, current, j);
      if current != NIL && !(if t.Index? then current.SliceAt? else current.MapAt?) {
        return Err(ClashAt(t));
      }
      var w := MakeRoom(current, t, j);
      ghost var before := cells;
      ghost var jw := Roomy(j, t);
      RoomIsThere(cells, w, j, t);
      StillApart(old(cells), cells, current, j, w, jw, value, jx);
      KidApart(cells, w, jw, t, value, jx);
      r := SetConfigPath(Kid(cells, w, t), tokens[1..], value, Slot(j, t), jx);
      if r.Err? {
        FailsBelow(j, t, tokens[1..], jx);
        return;
      }
      ghost var mid := cells;
      ghost var k := ConfigLens.Set(Slot(j, t), tokens[1..], jx).value;
      Place(w, t, r.value, before, jw, k);
      WriteBelow(old(cells), before, mid, cells, current, j, w, t, value, jx, r.value, k);
      r := Ok(w);
    }

    /** `append(items[:i], items[i+1:]...)`: the later elements move down in the backing array, which keeps
        its last one twice. */
    method RemoveIndex(v: Val, i: nat, ghost items: seq<Json>) returns (w: Val)
      requires Valid() && Tree(cells, v, Arr(items)) && i < |items|
      modifies this
      ensures Valid() && Within(old(cells), cells, v, Arr(items)) && Tree(cells, w, Arr(WithoutIndex(items, i)))
      ensures MadeOf(old(cells), cells, w, Arr(WithoutIndex(items, i)), v, Arr(items), NIL, Null)
    {
      var slots := cells[v.loc].slots;
      cells := cells[v.loc := Backing(slots[..i] + slots[i + 1..v.len] + slots[v.len - 1..])];
      w := SliceAt(v.loc, v.len - 1);
      IndexRemoved(old(cells), cells, v, items, i);
    }

    /** `delete(items, key)`. */
    method RemoveKey(v: Val, key: string, ghost fields: map<string, Json>)
      requires Valid() && Tree(cells, v, Obj(fields)) && key in fields
      modifies this
      ensures Valid() && Within(old(cells), cells, v, Obj(fields)) && Tree(cells, v, Obj(fields - {key}))
      ensures MadeOf(old(cells), cells, v, Obj(fields - {key}), v, Obj(fields), NIL, Null)
    {
      cells := cells[v.loc := Entries(cells[v.loc].entries - {key})];
      KeyRemoved(old(cells), cells, v, fields, key);
    }

    /** `unsetConfigPath` on the document itself. Where it fails or finds nothing it has touched nothing; a
        removal has turned the old value into the new one, touching only what belonged to it. */
    method UnsetConfigPath(current: Val, tokens: Path, ghost j: Json) returns (r: Result<(Val, bool), Clash>)
      requires Valid() && Tree(cells, current, j)
      modifies this
      ensures Valid() && Within(old(cells), cells, current, j)
      ensures match ConfigLens.Unset(j, tokens)
              case Err(e) => r == Err(e) && cells == old(cells)
              case Ok(Removal(k, removed)) =>
                && r.Ok? && r.value.1 == removed
                && (!removed ==> r.value.0 == current && cells == old(cells))
                && Tree(cells, r.value.0, k)
                && MadeOf(old(cells), cells, r.value.0, k, current, j, NIL, Null)
                && (current.MapAt? ==> r.value.0 == current)
      decreases tokens, 0
    {
      hide Tree, Reaches, Grown, Within, MadeOf, Apart, Placed, Roomy, Slot;
      WithinNot(cells, current, j);
      MadeOfOld(cells, current, j);
      if tokens == [] {
        return Ok((current, false));
      }
      var t := tokens[0];
      HeadOfTree(cells, current, j);
      if !(if t.Index? then current.SliceAt? else current.MapAt?) {
        return Err(ClashAt(t));
      }
      if !(if t.Index? then t.index < current.len else t.key in cells[current.loc].entries) {
        return Ok((current, false));
      }
      if |tokens| == 1 {
        match t
        case Index(i) =>
          var w := RemoveIndex(current, i, j.items);
          return Ok((w, true));
        case Key(key) =>
          RemoveKey(current, key, j.fields);
          return Ok((current, true));
      }
      r := UnsetBelow(current, t, tokens[1..], j);
    }

    /** The case of `unsetConfigPath` that goes on below a child. */
    method UnsetBelow(current: Val, t: Token, rest: Path, ghost j: Json) returns (r: Result<(Val, bool), Clash>)
      requires Valid() && Tree(cells, current, j) && Child(j, t).Found?
      modifies this
      ensures Valid() && Within(old(cells), cells, current, j)
      ensures match ConfigLens.Unset(Child(j, t).value, rest)
              case Err(e) => r == Err(e) && cells == old(cells)
              case Ok(Removal(y, removed)) =>
                && r.Ok? && r.value.0 == current && r.value.1 == removed
                && (!removed ==> cells == old(cells))
                && (removed ==> Fits(j, t) && Tree(cells, current, Put(j, t, y))
                                && MadeOf(old(cells), cells, current, Put(j, t, y), current, j, NIL, Null))
      decreases rest, 1
    {
      hide Tree, Reaches, Grown, Within, MadeOf, Apart, Placed, Kid;
      HeadOfTree(cells, current, j);
      WithinNot(cells, current, j);
      ChildIsThere(cells, current, j, t);
      r := UnsetConfigPath(Kid(cells, current, t), rest, Child(j, t).value);
      if r.Err? {
        return;
      }
      if !r.value.1 {
        return Ok((current, false));
      }
      ghost var mid := cells;
      ghost var k := ConfigLens.Unset(Child(j, t).value, rest).value.tree;
      Place(current, t, r.value.0, old(cells), j, k);
      WriteBelow(old(cells), old(cells), mid, cells, current, j, current, t, NIL, Null, r.value.0, k);
      r := Ok((current, true));
    }
  }
}
