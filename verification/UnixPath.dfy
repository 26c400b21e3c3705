/**
 The lexical path functions of Go's path and path/filepath on Unix, on the names between the slashes:
 `Clean`, `Join`, `Dir` and `Rel`, with the facts about them that the configuration code relies on.
 */
module UnixPath {
  import opened Text
  import opened Wrappers

  /** The names between the slashes; a path has at least one, which may be empty. */
  function Split(s: string): (r: seq<string>)
    ensures |r| > 0
    ensures forall c :: c in r ==> '/' !in c
  {
    if s == "" then [""] else
      var r := Split(s[1..]);
      if s[0] == '/' then [""] + r else [[s[0]] + r[0]] + r[1..]
  }

  predicate IsAbs(s: string) {
    s != "" && s[0] == '/'
  }

  /** One more name on a path that is clean so far. */
  function Step(rooted: bool, out: seq<string>, name: string): seq<string> {
    if name == "" || name == "." then out
    else if name == ".." && out != [] && out[|out| - 1] != ".." then out[..|out| - 1]
    else if name == ".." && rooted then out
    else out + [name]
  }

  function Walk(rooted: bool, out: seq<string>, names: seq<string>): seq<string>
    decreases |names|
  {
    if names == [] then out else Walk(rooted, Step(rooted, out, names[0]), names[1..])
  }

  function Render(rooted: bool, names: seq<string>): string {
    if names == [] then (if rooted then "/" else ".")
    else if rooted then "/" + Join(names, "/")
    else Join(names, "/")
  }

  function CleanNames(s: string): seq<string> {
    Walk(IsAbs(s), [], Split(s))
  }

  /** `filepath.Clean`. */
  function Clean(s: string): string {
    Render(IsAbs(s), CleanNames(s))
  }

  /** `filepath.Join` of two paths that are not empty. */
  function JoinPaths(base: string, path: string): string {
    Clean(base + "/" + path)
  }

  /** `filepath.Dir`: all but the last name, cleaned. */
  function Dir(s: string): string {
    Render(IsAbs(s), Walk(IsAbs(s), [], Split(s)[..|Split(s)| - 1]))
  }

  function Common(a: seq<string>, b: seq<string>): (k: nat)
    ensures k <= |a| && k <= |b| && a[..k] == b[..k]
    ensures k < |a| && k < |b| ==> a[k] != b[k]
  {
    if a == [] || b == [] || a[0] != b[0] then 0 else 1 + Common(a[1..], b[1..])
  }

  function Ups(n: nat): (r: seq<string>)
    ensures |r| == n && forall i :: 0 <= i < n ==> r[i] == ".."
  {
    seq(n, i requires 0 <= i < n => "..")
  }

  /** `filepath.Rel`; `None` is its error. */
  function Rel(base: string, target: string): Option<string> {
    var b, t := CleanNames(base), CleanNames(target);
    if Clean(base) == Clean(target) then Some(".")
    else if IsAbs(Clean(base)) != IsAbs(Clean(target)) then None
    else
      var k := Common(b, t);
      if k < |b| && b[k] == ".." then None else Some(Render(false, Ups(|b| - k) + t[k..]))
  }

  // ---------------------------------------------------------------- splitting and joining

  lemma {:induction false} SplitPlain(s: string)
    requires '/' !in s
    ensures Split(s) == [s]
  {
    if s != "" {
      SplitPlain(s[1..]);
      assert [s[0]] + s[1..] == s;
    }
  }

  lemma SplitFirst(s: string)
    requires s != ""
    ensures var r := Split(s[1..]);
            Split(s) == if s[0] == '/' then [""] + r else [[s[0]] + r[0]] + r[1..]
  {
  }

  lemma SplitsAdd(c: char, r: seq<string>, q: seq<string>)
    requires r != []
    ensures [""] + (r + q) == [""] + r + q
    ensures [[c] + (r + q)[0]] + (r + q)[1..] == [[c] + r[0]] + r[1..] + q
  {
    assert (r + q)[1..] == r[1..] + q;
  }

  /** A slash separates. */
  lemma {:induction false} SplitSlash(a: string, b: string)
    ensures Split(a + "/" + b) == Split(a) + Split(b)
  {
    hide Split;
    var s := a + "/" + b;
    SplitFirst(s);
    if a == "" {
      SplitPlain("");
      assert s[1..] == b;
    } else {
      SplitSlash(a[1..], b);
      SplitFirst(a);
      assert s[1..] == a[1..] + "/" + b;
      SplitsAdd(s[0], Split(a[1..]), Split(b));
    }
  }

  lemma {:induction false} SplitJoin(names: seq<string>)
    requires names != [] && forall c :: c in names ==> '/' !in c
    ensures Split(Join(names, "/")) == names
  {
    assert names[0] in names;
    SplitPlain(names[0]);
    if |names| > 1 {
      SplitJoin(names[1..]);
      SplitSlash(names[0], Join(names[1..], "/"));
    }
  }

  /** Laid end to end with a slash before each, the names take this many characters. */
  function Weight(names: seq<string>): nat {
    if names == [] then 0 else |names[0]| + 1 + Weight(names[1..])
  }

  lemma {:induction false} WeightAdds(a: seq<string>, b: seq<string>)
    ensures Weight(a + b) == Weight(a) + Weight(b)
  {
    if a == [] {
      assert a + b == b;
    } else {
      WeightAdds(a[1..], b);
      assert (a + b)[1..] == a[1..] + b;
    }
  }

  lemma {:induction false} SplitWeight(s: string)
    ensures Weight(Split(s)) == |s| + 1
  {
    if s != "" {
      SplitWeight(s[1..]);
      var r := Split(s[1..]);
      if s[0] != '/' {
        assert Split(s)[1..] == r[1..];
      }
    }
  }

  lemma {:induction false} JoinWeight(names: seq<string>)
    requires names != []
    ensures |Join(names, "/")| + 1 == Weight(names)
  {
    if |names| > 1 {
      JoinWeight(names[1..]);
    } else {
      assert names[1..] == [];
    }
  }

  // ---------------------------------------------------------------- cleaning

  /** The names of a clean path: ".." only in front, and nowhere on a rooted one. */
  predicate Normal(rooted: bool, names: seq<string>) {
    && (forall i :: 0 <= i < |names| ==>
          names[i] != "" && names[i] != "." && '/' !in names[i] && (rooted ==> names[i] != ".."))
    && (forall i, j :: 0 <= i < j < |names| && names[j] == ".." ==> names[i] == "..")
  }

  lemma StepNormal(rooted: bool, out: seq<string>, name: string)
    requires Normal(rooted, out) && '/' !in name
    ensures Normal(rooted, Step(rooted, out, name))
  {
  }

  lemma {:induction false} WalkNormal(rooted: bool, out: seq<string>, names: seq<string>)
    requires Normal(rooted, out) && forall c :: c in names ==> '/' !in c
    ensures Normal(rooted, Walk(rooted, out, names))
    decreases |names|
  {
    if names != [] {
      assert names[0] in names;
      StepNormal(rooted, out, names[0]);
      WalkNormal(rooted, Step(rooted, out, names[0]), names[1..]);
    }
  }

  lemma CleanIsNormal(s: string)
    ensures Normal(IsAbs(s), CleanNames(s))
  {
    WalkNormal(IsAbs(s), [], Split(s));
  }

  lemma {:induction false} WalkAdds(rooted: bool, out: seq<string>, a: seq<string>, b: seq<string>)
    ensures Walk(rooted, out, a + b) == Walk(rooted, Walk(rooted, out, a), b)
    decreases |a|
  {
    if a == [] {
      assert a + b == b;
    } else {
      WalkAdds(rooted, Step(rooted, out, a[0]), a[1..], b);
      assert (a + b)[1..] == a[1..] + b;
    }
  }

  /** Names that make a clean path with those before them are just appended. */
  lemma {:induction false} WalkNormalNames(rooted: bool, out: seq<string>, names: seq<string>)
    requires Normal(rooted, out + names)
    ensures Walk(rooted, out, names) == out + names
    decreases |names|
  {
    if names == [] {
      assert out + names == out;
    } else {
      assert (out + names)[|out|] == names[0];
      assert out != [] ==> (out + names)[|out| - 1] == out[|out| - 1];
      assert out + [names[0]] + names[1..] == out + names;
      WalkNormalNames(rooted, out + [names[0]], names[1..]);
    }
  }

  /** What comes before the first slash of a rooted path: nothing. */
  function Front(rooted: bool): seq<string> {
    if rooted then [""] else []
  }

  lemma SplitRendered(rooted: bool, names: seq<string>)
    requires Normal(rooted, names) && names != []
    ensures Split(Render(rooted, names)) == Front(rooted) + names
  {
    assert forall c :: c in names ==> '/' !in c;
    SplitJoin(names);
    JoinStart(names);
    assert rooted ==> Render(rooted, names)[1..] == Join(names, "/");
  }

  lemma WalkRendered(rooted: bool, names: seq<string>)
    requires Normal(rooted, names)
    ensures Walk(rooted, [], Front(rooted) + names) == names
  {
    assert [] + names == names;
    WalkNormalNames(rooted, [], names);
    if rooted {
      assert (Front(rooted) + names)[1..] == names;
    }
  }

  lemma WalkEmpty(rooted: bool)
    ensures CleanNames(Render(rooted, [])) == []
    ensures Dir(Render(rooted, [])) == Render(rooted, [])
  {
    if rooted {
      assert Split("/") == [""] + Split("") == ["", ""] && Split("/")[..1] == [""];
      assert Walk(true, [], ["", ""]) == Walk(true, [], [""]) == Walk(true, [], []);
    } else {
      SplitPlain(".");
      assert Walk(false, [], ["."]) == Walk(false, [], []);
    }
  }

  /** A clean path has the names it was rendered from, and cleaning it again changes nothing. */
  lemma RenderedIsClean(rooted: bool, names: seq<string>)
    requires Normal(rooted, names)
    ensures var s := Render(rooted, names);
            s != "" && IsAbs(s) == rooted && CleanNames(s) == names && Clean(s) == s
  {
    if names == [] {
      WalkEmpty(rooted);
    } else {
      JoinStart(names);
      SplitRendered(rooted, names);
      WalkRendered(rooted, names);
      hide Split, Walk, Normal;
    }
  }

  /** The directory of a clean path. */
  lemma DirOfClean(rooted: bool, names: seq<string>)
    requires Normal(rooted, names)
    ensures Dir(Render(rooted, names)) == Render(rooted, if names == [] then [] else names[..|names| - 1])
  {
    RenderedIsClean(rooted, names);
    if names == [] {
      WalkEmpty(rooted);
    } else {
      var init := names[..|names| - 1];
      SplitRendered(rooted, names);
      WalkRendered(rooted, init);
      hide Split, Walk, Normal, Render, Front, CleanNames, Clean;
      var all := Front(rooted) + names;
      assert all[..|all| - 1] == Front(rooted) + init;
    }
  }

  lemma JoinStart(names: seq<string>)
    requires names != [] && names[0] != ""
    ensures Join(names, "/") != "" && Join(names, "/")[0] == names[0][0]
  {
  }

  lemma CleanIsClean(s: string)
    ensures Clean(s) != "" && IsAbs(Clean(s)) == IsAbs(s) && CleanNames(Clean(s)) == CleanNames(s)
    ensures Clean(Clean(s)) == Clean(s)
  {
    CleanIsNormal(s);
    RenderedIsClean(IsAbs(s), CleanNames(s));
  }

  /** Two clean paths are the same only if they have the same names. */
  lemma RenderInjective(r: bool, a: seq<string>, q: bool, b: seq<string>)
    requires Normal(r, a) && Normal(q, b) && Render(r, a) == Render(q, b)
    ensures r == q && a == b
  {
    RenderedIsClean(r, a);
    RenderedIsClean(q, b);
  }

  lemma {:induction false} WalkWeight(rooted: bool, out: seq<string>, names: seq<string>)
    ensures Weight(Walk(rooted, out, names)) <= Weight(out) + Weight(names)
    decreases |names|
  {
    if names != [] {
      var next := Step(rooted, out, names[0]);
      assert Weight(next) <= Weight(out) + |names[0]| + 1 by {
        if next == out + [names[0]] {
          WeightAdds(out, [names[0]]);
          assert Weight([names[0]]) == |names[0]| + 1 + Weight([]);
        } else if next != out {
          WeightAdds(out[..|out| - 1], [out[|out| - 1]]);
          assert out == out[..|out| - 1] + [out[|out| - 1]];
        }
      }
      WalkWeight(rooted, next, names[1..]);
    }
  }

  /** Cleaning never makes a path longer. */
  lemma CleanIsNoLonger(s: string)
    requires s != ""
    ensures |Clean(s)| <= |s|
  {
    var names := CleanNames(s);
    SplitWeight(s);
    WalkWeight(IsAbs(s), [], Split(s));
    if names != [] {
      JoinWeight(names);
      if IsAbs(s) {
        assert Split(s) == [""] + Split(s[1..]);
        assert Walk(true, [], Split(s)) == Walk(true, [], Split(s[1..])) by { assert Split(s)[1..] == Split(s[1..]); }
        SplitWeight(s[1..]);
        WalkWeight(true, [], Split(s[1..]));
      }
    }
  }

  // ---------------------------------------------------------------- where a path leads

  /** The directory entered from another by a name: "" and "." stay, ".." goes to the parent, which the root
      has for its own. */
  function Entered(at: seq<string>, name: string): seq<string> {
    if name in {"", "."} then at
    else if name != ".." then at + [name]
    else if at == [] then []
    else at[..|at| - 1]
  }

  function Reached(at: seq<string>, names: seq<string>): seq<string>
    decreases |names|
  {
    if names == [] then at else Reached(Entered(at, names[0]), names[1..])
  }

  lemma {:induction false} ReachedIsWalk(at: seq<string>, names: seq<string>)
    requires Normal(true, at) && forall c :: c in names ==> '/' !in c
    ensures Reached(at, names) == Walk(true, at, names)
    decreases |names|
  {
    if names != [] {
      assert names[0] in names;
      StepNormal(true, at, names[0]);
      EnteredIsStep(at, names[0]);
      hide Normal;
      ReachedIsWalk(Entered(at, names[0]), names[1..]);
    }
  }

  lemma EnteredIsStep(at: seq<string>, name: string)
    requires Normal(true, at)
    ensures Entered(at, name) == Step(true, at, name)
  {
    assert at != [] ==> at[|at| - 1] != "..";
  }

  /** The clean path leads where the path leads, from the root or from any directory, and it has no detours. */
  lemma CleanLeadsThere(s: string, at: seq<string>)
    requires Normal(true, at) && (IsAbs(s) ==> at == [])
    ensures Reached(at, CleanNames(s)) == Reached(at, Split(s)) && Normal(IsAbs(s), CleanNames(s))
  {
    hide Split, Walk, Step;
    CleanIsNormal(s);
    var names := CleanNames(s);
    assert forall c :: c in names ==> '/' !in c;
    ReachedIsWalk(at, names);
    ReachedIsWalk(at, Split(s));
    if IsAbs(s) {
      assert [] + names == names;
      WalkNormalNames(true, [], names);
    } else {
      WalkClean(true, at, [], Split(s));
      assert Walk(true, at, []) == at by {
        NoNames(at);
      }
    }
  }

  lemma NoNames(at: seq<string>)
    ensures Walk(true, at, []) == at
  {
  }

  // ---------------------------------------------------------------- joining and relating

  lemma StepCommutes(rooted: bool, base: seq<string>, out: seq<string>, name: string)
    requires Normal(false, out)
    ensures Walk(rooted, base, Step(false, out, name)) == Step(rooted, Walk(rooted, base, out), name)
  {
    var next := Step(false, out, name);
    if next == out + [name] {
      WalkAdds(rooted, base, out, [name]);
      assert Walk(rooted, Walk(rooted, base, out), [name]) == Walk(rooted, Step(rooted, Walk(rooted, base, out), name), []);
    } else if next != out {
      var init, last := out[..|out| - 1], out[|out| - 1];
      assert out == init + [last];
      WalkAdds(rooted, base, init, [last]);
      var at := Walk(rooted, base, init);
      assert Walk(rooted, at, [last]) == Walk(rooted, Step(rooted, at, last), []) == at + [last];
    }
  }

  /** Walking a path that has been cleaned first leads to the same place. */
  lemma {:induction false} WalkClean(rooted: bool, base: seq<string>, out: seq<string>, names: seq<string>)
    requires Normal(false, out) && forall c :: c in names ==> '/' !in c
    ensures Walk(rooted, base, Walk(false, out, names)) == Walk(rooted, Walk(rooted, base, out), names)
    decreases |names|
  {
    if names != [] {
      assert names[0] in names;
      StepCommutes(rooted, base, out, names[0]);
      StepNormal(false, out, names[0]);
      WalkClean(rooted, base, Step(false, out, names[0]), names[1..]);
    }
  }

  /** Joining is walking on from the base. */
  lemma JoinWalks(base: string, path: string)
    requires base != "" && path != ""
    ensures JoinPaths(base, path) == Render(IsAbs(base), Walk(IsAbs(base), CleanNames(base), Split(path)))
  {
    SplitSlash(base, path);
    WalkAdds(IsAbs(base), [], Split(base), Split(path));
  }
}
