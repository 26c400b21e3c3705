/**
 How paths are written to the configuration file (pkg/config/io.go) and read back
 (pkg/config/normalize.go), on Unix. A path inside the directory of the configuration file is stored
 relative to it; reading resolves it against that directory.
 */
module PathPersist {
  import opened Text
  import opened UnixPath
  import opened Wrappers

  /** What the process sees of its surroundings: what `expandPathEnv` makes of a path, and the working
      directory, `None` where it cannot be told. */
  datatype Env = Env(expand: string -> string, cwd: Option<string>)

  predicate PlainChar(c: char) {
    c != '~' && c != '$' && c != '%'
  }

  predicate All(s: string, ok: char -> bool) {
    forall i :: 0 <= i < |s| ==> ok(s[i])
  }

  /** Nothing in it that refers to the environment or to a home directory. */
  predicate Plain(s: string) {
    All(s, PlainChar)
  }

  predicate NotSpace(c: char) {
    !IsSpace(c)
  }

  /** Expansion leaves alone what refers to nothing, and the working directory is absolute. */
  ghost predicate Usual(env: Env) {
    && (forall s :: Plain(s) && Trimmed(s) ==> env.expand(s) == s)
    && (env.cwd.Some? ==> IsAbs(env.cwd.value))
  }

  function CleanConfigPath(env: Env, value: string): string {
    var v := Trim(value);
    if v == "" then "" else Clean(env.expand(v))
  }

  function ResolveConfigPath(env: Env, path: string): string {
    var trimmed := Trim(path);
    var p := if trimmed == "" then "anyclaw.json" else trimmed;
    if IsAbs(p) then Clean(p)
    else match env.cwd
      case None => Clean(p)
      case Some(wd) => Clean(JoinPaths(wd, p))
  }

  /** The directory of the configuration file. */
  function BaseDir(env: Env, configPath: string): string {
    Dir(ResolveConfigPath(env, configPath))
  }

  function ResolvePath(env: Env, configPath: string, value: string): string {
    var cleaned := CleanConfigPath(env, value);
    if cleaned == "" then "" else
      var native := Clean(cleaned);
      if IsAbs(native) then native else Clean(JoinPaths(BaseDir(env, configPath), native))
  }

  /** A path that leads out of the directory it starts from. */
  predicate LeadsOut(rel: string) {
    rel == ".." || "../" <= rel
  }

  function PersistConfigPath(env: Env, configPath: string, value: string): string {
    var cleaned := CleanConfigPath(env, value);
    if cleaned == "" then "" else
      var native := Clean(cleaned);
      if !IsAbs(native) then cleaned else
        match Rel(BaseDir(env, configPath), native)
        case None => native
        case Some(r) =>
          var rel := Clean(r);
          if LeadsOut(rel) then native else rel
  }

  // ---------------------------------------------------------------- characters

  predicate AllNames(names: seq<string>, ok: char -> bool) {
    forall i :: 0 <= i < |names| ==> All(names[i], ok)
  }

  lemma {:induction false} SplitChars(s: string, ok: char -> bool)
    requires All(s, ok)
    ensures AllNames(Split(s), ok)
  {
    if s != "" {
      SplitChars(s[1..], ok);
    }
  }

  lemma {:induction false} WalkChars(rooted: bool, out: seq<string>, names: seq<string>, ok: char -> bool)
    requires AllNames(out, ok) && AllNames(names, ok)
    ensures AllNames(Walk(rooted, out, names), ok)
    decreases |names|
  {
    if names != [] {
      WalkChars(rooted, Step(rooted, out, names[0]), names[1..], ok);
    }
  }

  lemma {:induction false} JoinChars(names: seq<string>, ok: char -> bool)
    requires names != [] && AllNames(names, ok) && ok('/')
    ensures All(Join(names, "/"), ok)
  {
    if |names| > 1 {
      JoinChars(names[1..], ok);
    }
  }

  lemma RenderChars(rooted: bool, names: seq<string>, ok: char -> bool)
    requires AllNames(names, ok) && ok('/') && ok('.')
    ensures All(Render(rooted, names), ok)
  {
    if names != [] {
      JoinChars(names, ok);
    }
  }

  lemma CleanChars(s: string, ok: char -> bool)
    requires All(s, ok) && ok('/') && ok('.')
    ensures AllNames(CleanNames(s), ok) && All(Clean(s), ok)
  {
    SplitChars(s, ok);
    WalkChars(IsAbs(s), [], Split(s), ok);
    RenderChars(IsAbs(s), CleanNames(s), ok);
  }

  lemma TrimChars(s: string, ok: char -> bool)
    requires All(s, ok)
    ensures All(Trim(s), ok)
  {
    var lo, hi := TrimSlice(s);
  }

  // ---------------------------------------------------------------- the base directory

  lemma ConfigPathIsClean(env: Env, configPath: string) returns (source: string)
    ensures ResolveConfigPath(env, configPath) == Clean(source)
  {
    var trimmed := Trim(configPath);
    var p := if trimmed == "" then "anyclaw.json" else trimmed;
    hide Trim, Clean, IsAbs, JoinPaths;
    source := if IsAbs(p) || env.cwd.None? then p else JoinPaths(env.cwd.value, p);
  }

  lemma BaseIsClean(env: Env, configPath: string) returns (rooted: bool, names: seq<string>)
    ensures Normal(rooted, names) && BaseDir(env, configPath) == Render(rooted, names)
  {
    var source := ConfigPathIsClean(env, configPath);
    hide ResolveConfigPath, CleanNames, Normal, IsAbs, Dir, Render;
    rooted := IsAbs(source);
    var all := CleanNames(source);
    CleanIsNormal(source);
    DirOfClean(rooted, all);
    names := if all == [] then [] else all[..|all| - 1];
    NormalPrefix(rooted, all, |names|);
  }

  lemma NormalPrefix(rooted: bool, names: seq<string>, n: nat)
    requires Normal(rooted, names) && n <= |names|
    ensures Normal(rooted, names[..n])
  {
  }

  // ---------------------------------------------------------------- relative paths

  lemma LeadsOutByName(names: seq<string>)
    requires Normal(false, names)
    ensures LeadsOut(Render(false, names)) <==> names != [] && names[0] == ".."
  {
    var rel := Render(false, names);
    if names != [] {
      SplitRendered(false, names);
      assert Front(false) + names == names;
      SplitPlain("..");
      if "../" <= rel {
        assert rel == ".." + "/" + rel[3..];
        SplitSlash("..", rel[3..]);
      }
    }
  }

  /** `Rel` from one absolute directory to another path: what is left of the path where it is inside,
      something that leads out where it is not. */
  lemma RelAbsolute(base: seq<string>, target: seq<string>)
    requires Normal(true, base) && Normal(true, target)
    ensures var r := Rel(Render(true, base), Render(true, target));
            && r.Some? && Clean(r.value) == r.value
            && (LeadsOut(r.value) <==> !(base <= target))
            && (base <= target ==> r.value == Render(false, target[|base|..]))
  {
    RenderedIsClean(true, base);
    RenderedIsClean(true, target);
    hide Clean, CleanNames, IsAbs, Render, LeadsOut, Normal, Common, Ups;
    if base == target {
      assert target[|base|..] == [];
      LeadsOutByName([]);
      RenderedIsClean(false, []);
    } else {
      if Render(true, base) == Render(true, target) {
        RenderInjective(true, base, true, target);
      }
      RelApart(base, target);
    }
  }

  lemma RelApart(base: seq<string>, target: seq<string>)
    requires Normal(true, base) && Normal(true, target)
    ensures Common(base, target) < |base| ==> base[Common(base, target)] != ".."
    ensures var k := Common(base, target);
            var rel := Ups(|base| - k) + target[k..];
            && Clean(Render(false, rel)) == Render(false, rel)
            && (LeadsOut(Render(false, rel)) <==> !(base <= target))
            && (base <= target ==> rel == target[|base|..])
  {
    hide Render, Clean, LeadsOut, Normal, Common;
    var k := Common(base, target);
    var rel := Ups(|base| - k) + target[k..];
    CommonOfPrefix(base, target);
    UpsThenDown(|base| - k, target, k);
    NotUp(base, k);
    LeadsOutByName(rel);
    RenderedIsClean(false, rel);
    if k == |base| {
      assert rel == target[k..];
      NotUp(target, k);
    } else {
      assert rel[0] == "..";
    }
  }

  lemma NotUp(names: seq<string>, k: nat)
    requires Normal(true, names)
    ensures k < |names| ==> names[k] != ".."
  {
  }

  lemma CommonOfPrefix(base: seq<string>, target: seq<string>)
    ensures base <= target <==> Common(base, target) == |base|
  {
    var k := Common(base, target);
    hide Common;
  }

  lemma UpsThenDown(ups: nat, target: seq<string>, k: nat)
    requires Normal(true, target) && k <= |target|
    ensures Normal(false, Ups(ups) + target[k..])
  {
    var rel := Ups(ups) + target[k..];
    assert forall i :: ups <= i < |rel| ==> rel[i] == target[k + i - ups];
  }

  // ---------------------------------------------------------------- what is written, and what it resolves to

  /** What `PersistConfigPath` writes for a path that trims to `x`. */
  datatype Written =
    | Kept
    | Inside(base: seq<string>)

  ghost predicate Writes(env: Env, configPath: string, x: string, w: Written, p: string) {
    match w
    case Kept => p == Clean(x)
    case Inside(base) =>
      && Normal(true, base) && BaseDir(env, configPath) == Render(true, base)
      && IsAbs(x) && base <= CleanNames(x) && p == Render(false, CleanNames(x)[|base|..])
  }

  /** The path `x` is in the directory of the configuration file, or is that directory. */
  predicate LiesInside(env: Env, configPath: string, x: string) {
    var dir := BaseDir(env, configPath);
    IsAbs(x) && IsAbs(dir) && CleanNames(dir) <= CleanNames(x)
  }

  /** A path that trims to `x` is written as it is, cleaned, unless it is absolute and inside the directory
      of the configuration file: then what is written is the rest of it. */
  lemma WhatIsWritten(env: Env, configPath: string, value: string) returns (w: Written)
    requires Usual(env) && Plain(value) && Trim(value) != ""
    ensures Writes(env, configPath, Trim(value), w, PersistConfigPath(env, configPath, value))
    ensures CleanConfigPath(env, value) == Clean(Trim(value))
    ensures w == if LiesInside(env, configPath, Trim(value)) then Inside(CleanNames(BaseDir(env, configPath))) else Kept
  {
    var x := Trim(value);
    TrimChars(value, PlainChar);
    CleanIsClean(x);
    CleanIsNormal(x);
    var rooted, base := BaseIsClean(env, configPath);
    RenderedIsClean(rooted, base);
    hide Trim, Plain, Normal, BaseDir, ResolveConfigPath, Render, CleanNames, Rel, Split;
    w := Kept;
    if IsAbs(x) {
      assert Clean(x) == Render(true, CleanNames(x));
      if rooted {
        RelAbsolute(base, CleanNames(x));
        if base <= CleanNames(x) {
          w := Inside(base);
        }
      } else {
        RelMixed(base, CleanNames(x));
      }
    }
  }

  lemma RelMixed(base: seq<string>, target: seq<string>)
    requires Normal(false, base) && Normal(true, target)
    ensures Rel(Render(false, base), Render(true, target)) == None
  {
    RenderedIsClean(false, base);
    RenderedIsClean(true, target);
    hide Render, IsAbs, Clean, CleanNames, Normal;
  }

  lemma ResolveAbsolute(env: Env, configPath: string, y: string)
    requires Usual(env) && Plain(y) && IsAbs(Trim(y))
    ensures ResolvePath(env, configPath, y) == Clean(Trim(y))
  {
    TrimChars(y, PlainChar);
    CleanIsClean(Trim(y));
    hide Trim, Plain, BaseDir, Clean;
  }

  /** A relative path resolves to where it leads from the directory of the configuration file. */
  lemma ResolveRelative(env: Env, configPath: string, y: string, rooted: bool, base: seq<string>)
    requires Usual(env) && Plain(y) && Trim(y) != "" && !IsAbs(Trim(y))
    requires Normal(rooted, base) && BaseDir(env, configPath) == Render(rooted, base)
    ensures ResolvePath(env, configPath, y) == Render(rooted, Walk(rooted, base, Split(Trim(y))))
  {
    var x := Trim(y);
    TrimChars(y, PlainChar);
    CleanIsClean(x);
    var native := Clean(x);
    JoinRelative(rooted, base, x);
    CleanIsClean(Render(rooted, base) + "/" + native);
    hide Trim, Plain, BaseDir, Clean, Render, Walk, Split, IsAbs, CleanNames, Normal;
  }

  lemma JoinRelative(rooted: bool, base: seq<string>, x: string)
    requires Normal(rooted, base) && x != "" && !IsAbs(x)
    ensures JoinPaths(Render(rooted, base), Clean(x)) == Render(rooted, Walk(rooted, base, Split(x)))
  {
    var native, names := Clean(x), CleanNames(x);
    RenderedIsClean(rooted, base);
    CleanIsClean(x);
    CleanIsNormal(x);
    JoinWalks(Render(rooted, base), native);
    WalkClean(rooted, base, [], Split(x));
    WalkRelative(rooted, base, names);
    assert Walk(rooted, base, []) == base;
    hide Walk, Split, Render, Normal;
  }

  lemma WalkRelative(rooted: bool, base: seq<string>, names: seq<string>)
    requires Normal(false, names)
    ensures Walk(rooted, base, Split(Render(false, names))) == Walk(rooted, base, names)
  {
    if names == [] {
      SplitPlain(".");
      assert Walk(rooted, base, ["."]) == Walk(rooted, base, []);
    } else {
      SplitRendered(false, names);
      assert Front(false) + names == names;
    }
  }

  /** Where a text leads from a directory: absolute ones start at the root. */
  function LeadsTo(at: seq<string>, x: string): seq<string> {
    Reached(if IsAbs(x) then [] else at, Split(x))
  }

  /** The configuration file that is meant: the one named, or "anyclaw.json" for a blank name, from the
      working directory. */
  function ConfigFile(cwd: string, configPath: string): seq<string> {
    LeadsTo(Reached([], Split(cwd)), if Blank(configPath) then "anyclaw.json" else Trim(configPath))
  }

  lemma ReachedNames(at: seq<string>, s: string)
    requires Normal(true, at) && (IsAbs(s) ==> at == [])
    ensures Walk(true, at, Split(s)) == Reached(at, Split(s)) && Normal(true, Reached(at, Split(s)))
  {
    ReachedIsWalk(at, Split(s));
    WalkNormal(true, at, Split(s));
  }

  /** The path of the configuration file leads to it from the root, and its directory is the parent. */
  lemma ConfigPathLeads(env: Env, configPath: string)
    requires env.cwd.Some? && IsAbs(env.cwd.value)
    ensures var file := ConfigFile(env.cwd.value, configPath);
            && Normal(true, file) && ResolveConfigPath(env, configPath) == Render(true, file)
            && BaseDir(env, configPath) == Render(true, Entered(file, ".."))
  {
    var cwd := env.cwd.value;
    BlankIsEmpty(configPath);
    var p := if Blank(configPath) then "anyclaw.json" else Trim(configPath);
    var at := Reached([], Split(cwd));
    var file := ConfigFile(cwd, configPath);
    hide Trim, Blank, Split, Walk, Reached, Render, Normal, Entered;
    assert Normal(true, []) by {
      NothingIsNormal();
    }
    ReachedNames([], cwd);
    if IsAbs(p) {
      ReachedNames([], p);
      assert Clean(p) == Render(true, file);
    } else {
      ReachedNames(at, p);
      JoinWalks(cwd, p);
      RenderedIsClean(true, file);
    }
    hide ResolveConfigPath;
    DirOfClean(true, file);
    assert ResolveConfigPath(env, configPath) == Render(true, file) by {
      ConfigPathIs(env, configPath, p);
    }
    ParentIs(file);
  }

  lemma ConfigPathIs(env: Env, configPath: string, p: string)
    requires env.cwd.Some? && p == if Trim(configPath) == "" then "anyclaw.json" else Trim(configPath)
    ensures ResolveConfigPath(env, configPath) == if IsAbs(p) then Clean(p) else Clean(JoinPaths(env.cwd.value, p))
  {
    hide Trim, Clean, IsAbs, JoinPaths;
  }

  lemma NothingIsNormal()
    ensures Normal(true, [])
  {
  }

  lemma ParentIs(file: seq<string>)
    ensures Entered(file, "..") == if file == [] then [] else file[..|file| - 1]
  {
  }

  /** A path of the configuration leads where its text leads from the directory of the configuration file. */
  lemma ResolvePathLeads(env: Env, configPath: string, value: string)
    requires Usual(env) && env.cwd.Some? && Plain(value) && !Blank(value)
    ensures ResolvePath(env, configPath, value) ==
            Render(true, LeadsTo(Entered(ConfigFile(env.cwd.value, configPath), ".."), Trim(value)))
  {
    var x := Trim(value);
    var file := ConfigFile(env.cwd.value, configPath);
    BlankIsEmpty(value);
    hide Trim, Blank, Split, Walk, Reached, Render, Entered, ConfigFile, ResolvePath, BaseDir, Normal, Plain;
    ConfigPathLeads(env, configPath);
    NothingIsNormal();
    ParentIs(file);
    var dir := Entered(file, "..");
    assert dir == file[..|dir|];
    NormalPrefix(true, file, |dir|);
    if IsAbs(x) {
      ResolveAbsolute(env, configPath, value);
      ReachedNames([], x);
    } else {
      ResolveRelative(env, configPath, value, true, dir);
      ReachedNames(dir, x);
    }
  }

  /** The first half: what is written without white space around it resolves to what was meant. */
  lemma ReadBack(env: Env, configPath: string, value: string)
    requires Usual(env) && Plain(value) && Trimmed(PersistConfigPath(env, configPath, value))
    ensures ResolvePath(env, configPath, PersistConfigPath(env, configPath, value)) ==
            ResolvePath(env, configPath, value)
  {
    var x, p := Trim(value), PersistConfigPath(env, configPath, value);
    if x != "" {
      var w := WhatIsWritten(env, configPath, value);
      WrittenIsPlain(env, configPath, value, w);
      CleanIsClean(x);
      assert Trim(p) == p;
      if w.Kept? {
        hide BaseDir, Clean, Trimmed, Trim, PersistConfigPath;
        assert CleanConfigPath(env, p) == CleanConfigPath(env, value);
      } else {
        ReadInside(env, configPath, x, w.base, p);
        ResolveAbsolute(env, configPath, value);
      }
    }
  }

  lemma ReadInside(env: Env, configPath: string, x: string, base: seq<string>, p: string)
    requires Usual(env) && Plain(p) && Trim(p) == p && Writes(env, configPath, x, Inside(base), p)
    ensures ResolvePath(env, configPath, p) == Clean(x)
  {
    hide Normal, Trim, ResolvePath, Walk, Render, Split, CleanNames, BaseDir, Plain, Usual, IsAbs;
    var names := CleanNames(x);
    var rest := names[|base|..];
    CleanIsNormal(x);
    assert names == base + rest;
    InsideWalks(base, rest);
    ResolveRelative(env, configPath, p, true, base);
  }

  lemma InsideWalks(base: seq<string>, rest: seq<string>)
    requires Normal(true, base + rest)
    ensures var p := Render(false, rest);
            p != "" && !IsAbs(p) && Walk(true, base, Split(p)) == base + rest
  {
    InsideIsNormal(base, rest);
    RenderedIsClean(false, rest);
    WalkRelative(true, base, rest);
    WalkNormalNames(true, base, rest);
  }

  lemma InsideIsNormal(base: seq<string>, rest: seq<string>)
    requires Normal(true, base + rest)
    ensures Normal(false, rest)
  {
    assert forall i :: 0 <= i < |rest| ==> rest[i] == (base + rest)[|base| + i];
  }

  lemma WrittenIsPlain(env: Env, configPath: string, value: string, w: Written)
    requires Plain(value) && Writes(env, configPath, Trim(value), w, PersistConfigPath(env, configPath, value))
    ensures Plain(PersistConfigPath(env, configPath, value))
  {
    hide Writes, PersistConfigPath, Trim, All;
    WrittenChars(env, configPath, value, w, PlainChar);
  }

  /** No characters are written but those of the path, slashes and dots. */
  lemma WrittenChars(env: Env, configPath: string, value: string, w: Written, ok: char -> bool)
    requires All(value, ok) && ok('/') && ok('.')
    requires Writes(env, configPath, Trim(value), w, PersistConfigPath(env, configPath, value))
    ensures All(PersistConfigPath(env, configPath, value), ok)
  {
    var x := Trim(value);
    TrimChars(value, ok);
    CleanChars(x, ok);
    hide PersistConfigPath, All, Trim, Normal, BaseDir;
    if w.Inside? {
      var rest := CleanNames(x)[|w.base|..];
      assert AllNames(rest, ok);
      RenderChars(false, rest, ok);
    }
  }

  // ---------------------------------------------------------------- where white space is lost

  lemma {:induction false} TrimRightStops(s: string, i: nat)
    requires i < |s| && !IsSpace(s[i])
    ensures |TrimRight(s)| > i
  {
    if i < |s| - 1 && IsSpace(s[|s| - 1]) {
      TrimRightStops(s[..|s| - 1], i);
    }
  }

  /** Of a path that starts with something else than white space, trimming only cuts off the end. */
  lemma TrimEnd(p: string)
    requires p != "" && !IsSpace(p[0])
    ensures Trim(p) == TrimRight(p) && Trim(p) != "" && Trim(p)[0] == p[0]
  {
    TrimRightStops(p, 0);
  }

  /** How many of the names lead up. */
  function Leading(names: seq<string>): (k: nat)
    ensures k <= |names| && names[..k] == Ups(k)
    ensures k < |names| ==> names[k] != ".."
  {
    if names == [] || names[0] != ".." then 0 else
      assert names[..1 + Leading(names[1..])] == [".."] + names[1..][..Leading(names[1..])];
      1 + Leading(names[1..])
  }

  lemma {:induction false} JoinAdds(a: seq<string>, b: seq<string>)
    requires a != [] && b != []
    ensures Join(a + b, "/") == Join(a, "/") + "/" + Join(b, "/")
  {
    if |a| == 1 {
      assert (a + b)[1..] == b;
    } else {
      JoinAdds(a[1..], b);
      assert (a + b)[1..] == a[1..] + b;
    }
  }

  /** A path trimmed at its end leads somewhere else: what follows the names that lead up got shorter. */
  lemma ShorterElsewhere(rooted: bool, base: seq<string>, names: seq<string>, y: string)
    requires Normal(rooted, base) && Normal(false, names) && names != []
    requires names[0] != ".." && |y| < |Render(false, names)|
    ensures Walk(rooted, base, Split(y)) != Walk(rooted, base, names)
  {
    JoinWeight(names);
    SplitWeight(y);
    WalkWeight(rooted, base, Split(y));
    DownIsAppended(rooted, base, names);
    WeightAdds(base, names);
  }

  lemma DownIsAppended(rooted: bool, base: seq<string>, names: seq<string>)
    requires Normal(rooted, base) && Normal(false, names) && (names != [] ==> names[0] != "..")
    ensures Walk(rooted, base, names) == base + names
  {
    var all := base + names;
    forall i | 0 <= i < |names|
      ensures names[i] != ".."
    {
    }
    assert forall i :: |base| <= i < |all| ==> all[i] == names[i - |base|];
    assert Normal(rooted, all);
    WalkNormalNames(rooted, base, names);
  }

  lemma UpThenShorter(rooted: bool, base: seq<string>, names: seq<string>, y: string)
    requires Normal(rooted, base) && Normal(false, names) && 0 < Leading(names) < |names|
    requires y == TrimRight(Render(false, names)) && y != Render(false, names)
    ensures Walk(rooted, base, Split(y)) != Walk(rooted, base, names)
  {
    var k := Leading(names);
    var ups, down := Ups(k), names[k..];
    assert names == ups + down;
    JoinAdds(ups, down);
    var p := Join(names, "/");
    TrimRightStops(p, |Join(ups, "/")|);
    TrimRightDrops(p);
    var z := y[|Join(ups, "/")| + 1..];
    assert y == Join(ups, "/") + "/" + z;
    assert forall c :: c in ups ==> '/' !in c;
    SplitJoin(ups);
    SplitSlash(Join(ups, "/"), z);
    WalkAdds(rooted, base, ups, Split(z));
    WalkAdds(rooted, base, ups, down);
    WalkNormal(rooted, base, ups);
    DownNormal(names, k);
    ShorterElsewhere(rooted, Walk(rooted, base, ups), down, z);
  }

  lemma DownNormal(names: seq<string>, k: nat)
    requires Normal(false, names) && k <= |names|
    ensures Normal(false, names[k..])
  {
  }

  /** Trimming a clean relative path that has white space around it changes where it leads. */
  lemma TrimmedElsewhere(rooted: bool, base: seq<string>, names: seq<string>)
    requires Normal(rooted, base) && Normal(false, names)
    requires !Trimmed(Render(false, names)) && !IsAbs(Trim(Render(false, names)))
    ensures Walk(rooted, base, Split(Trim(Render(false, names)))) != Walk(rooted, base, names)
  {
    var p := Render(false, names);
    var y := Trim(p);
    var k := Leading(names);
    if k == 0 {
      ShorterElsewhere(rooted, base, names, y);
    } else {
      UpIsTrimmed(names);
      JoinStart(names);
      TrimEnd(p);
      UpThenShorter(rooted, base, names, y);
    }
  }

  /** A path of nothing but ".." has no white space around it. */
  lemma UpIsTrimmed(names: seq<string>)
    requires Normal(false, names) && !Trimmed(Render(false, names))
    ensures Leading(names) < |names|
  {
    if names != [] && Leading(names) == |names| {
      assert names == Ups(|names|);
      UpsEnd(|names|);
      JoinStart(names);
    }
  }

  lemma {:induction false} UpsEnd(n: nat)
    requires n > 0
    ensures var s := Join(Ups(n), "/"); s != "" && s[|s| - 1] == '.'
  {
    if n > 1 {
      UpsEnd(n - 1);
      assert Ups(n)[1..] == Ups(n - 1);
    }
  }

  /** Where a path that is only white space away from an absolute one leads. */
  lemma AbsoluteElsewhere(rooted: bool, base: seq<string>, names: seq<string>)
    requires Normal(rooted, base) && Normal(false, names)
    requires !Trimmed(Render(false, names)) && IsAbs(Trim(Render(false, names)))
    ensures Clean(Trim(Render(false, names))) != Render(rooted, Walk(rooted, base, names))
  {
    var p := Render(false, names);
    var y := Trim(p);
    if names != [] {
      JoinStart(names);
      if names[0] == ".." {
        TrimEnd(p);
      }
      DownIsAppended(rooted, base, names);
      CleanIsNoLonger(y);
      JoinWeight(names);
      JoinWeight(base + names);
      WeightAdds(base, names);
    }
  }

  /** The second half: white space around what is written is lost on the way back. */
  lemma LostSpace(env: Env, configPath: string, value: string)
    requires Usual(env) && Plain(value) && !Trimmed(PersistConfigPath(env, configPath, value))
    ensures ResolvePath(env, configPath, PersistConfigPath(env, configPath, value)) !=
            ResolvePath(env, configPath, value)
  {
    var x, p := Trim(value), PersistConfigPath(env, configPath, value);
    if x != "" {
      var w := WhatIsWritten(env, configPath, value);
      WrittenIsPlain(env, configPath, value, w);
      if IsAbs(x) && w.Kept? {
        LostAbsolute(env, configPath, value, p);
      } else {
        LostRelative(env, configPath, value, w, p);
      }
    }
  }

  lemma LostAbsolute(env: Env, configPath: string, value: string, p: string)
    requires Usual(env) && Plain(value) && IsAbs(Trim(value)) && p == Clean(Trim(value)) && Plain(p) && !Trimmed(p)
    ensures ResolvePath(env, configPath, p) != ResolvePath(env, configPath, value)
  {
    CleanIsClean(Trim(value));
    TrimEnd(p);
    ResolveAbsolute(env, configPath, value);
    ResolveAbsolute(env, configPath, p);
    CleanIsNoLonger(Trim(p));
    hide Clean, ResolvePath, Plain, Usual, Trim;
  }

  /** A path whose writing is relative resolves to where the writing leads from the base directory. */
  lemma RelativeTarget(env: Env, configPath: string, value: string, w: Written, p: string, rooted: bool, base: seq<string>)
    returns (names: seq<string>)
    requires Usual(env) && Plain(value) && Trim(value) != ""
    requires Writes(env, configPath, Trim(value), w, p) && (w.Kept? ==> !IsAbs(Trim(value)))
    requires Normal(rooted, base) && BaseDir(env, configPath) == Render(rooted, base)
    ensures Normal(false, names) && p == Render(false, names)
    ensures ResolvePath(env, configPath, value) == Render(rooted, Walk(rooted, base, names))
  {
    var x := Trim(value);
    CleanIsNormal(x);
    if w.Kept? {
      names := CleanNames(x);
      ResolveRelative(env, configPath, value, rooted, base);
      WalkClean(rooted, base, [], Split(x));
      assert Walk(rooted, base, []) == base;
      hide Normal, Trim, ResolvePath, Walk, Render, Split, BaseDir, Plain, Usual;
    } else {
      RenderInjective(rooted, base, true, w.base);
      names := CleanNames(x)[|base|..];
      assert CleanNames(x) == base + names;
      InsideIsNormal(base, names);
      InsideWalks(base, names);
      WalkNormalNames(true, base, names);
      ResolveAbsolute(env, configPath, value);
      hide Normal, Trim, ResolvePath, Walk, Render, Split, BaseDir, Plain, Usual, CleanNames;
    }
  }

  /** Walks that end in different places give different paths. */
  lemma WalksDiffer(rooted: bool, base: seq<string>, a: seq<string>, b: seq<string>)
    requires Normal(rooted, base) && Walk(rooted, base, a) != Walk(rooted, base, b)
    requires (forall c :: c in a ==> '/' !in c) && Normal(false, b)
    ensures Render(rooted, Walk(rooted, base, a)) != Render(rooted, Walk(rooted, base, b))
  {
    WalkNormal(rooted, base, a);
    assert forall c :: c in b ==> '/' !in c;
    WalkNormal(rooted, base, b);
    if Render(rooted, Walk(rooted, base, a)) == Render(rooted, Walk(rooted, base, b)) {
      RenderInjective(rooted, Walk(rooted, base, a), rooted, Walk(rooted, base, b));
    }
  }

  lemma LostRelative(env: Env, configPath: string, value: string, w: Written, p: string)
    requires Usual(env) && Plain(value) && Plain(p) && !Trimmed(p) && Trim(value) != ""
    requires Writes(env, configPath, Trim(value), w, p) && (w.Kept? ==> !IsAbs(Trim(value)))
    ensures ResolvePath(env, configPath, p) != ResolvePath(env, configPath, value)
  {
    var rooted, base := BaseIsClean(env, configPath);
    var names := RelativeTarget(env, configPath, value, w, p, rooted, base);
    hide Normal, Trim, ResolvePath, Walk, Render, Split, CleanNames, BaseDir, Plain, Usual, IsAbs, Writes, Clean, Trimmed;
    if Trim(p) == "" {
      ResolveBlank(env, configPath, p);
      DownNotEmpty(rooted, base, names);
    } else if IsAbs(Trim(p)) {
      ResolveAbsolute(env, configPath, p);
      AbsoluteElsewhere(rooted, base, names);
    } else {
      ResolveRelative(env, configPath, p, rooted, base);
      TrimmedElsewhere(rooted, base, names);
      WalksDiffer(rooted, base, Split(Trim(p)), names);
    }
  }

  lemma ResolveBlank(env: Env, configPath: string, y: string)
    requires Trim(y) == ""
    ensures ResolvePath(env, configPath, y) == ""
  {
  }

  lemma DownNotEmpty(rooted: bool, base: seq<string>, names: seq<string>)
    requires Normal(rooted, base) && Normal(false, names)
    ensures Render(rooted, Walk(rooted, base, names)) != ""
  {
    assert forall c :: c in names ==> '/' !in c;
    WalkNormal(rooted, base, names);
    RenderedIsClean(rooted, Walk(rooted, base, names));
  }

  lemma RoundTripIfTrimmed(env: Env, configPath: string, value: string)
    requires Usual(env) && Plain(value)
    ensures ResolvePath(env, configPath, PersistConfigPath(env, configPath, value)) ==
            ResolvePath(env, configPath, value)
            <==> Trimmed(PersistConfigPath(env, configPath, value))
  {
    hide ResolvePath, PersistConfigPath, Trimmed, Plain, Usual;
    if Trimmed(PersistConfigPath(env, configPath, value)) {
      ReadBack(env, configPath, value);
    } else {
      LostSpace(env, configPath, value);
    }
  }

  // ---------------------------------------------------------------- which paths keep their white space

  /** The last name does not end in white space. */
  predicate EndsTidily(names: seq<string>) {
    names != [] ==> var last := names[|names| - 1]; last != "" ==> !IsSpace(last[|last| - 1])
  }

  predicate TidyNames(rooted: bool, names: seq<string>) {
    if rooted then EndsTidily(names) else TidyEdges(names)
  }

  /** What is kept of the path has no white space at its edges: neither before the first name nor behind the
      last one of what follows the directory of the configuration file, or of the whole path if it is not in
      there. Before the first name of an absolute path comes a slash. */
  predicate TidyPath(env: Env, configPath: string, value: string) {
    var x := Trim(value);
    x != "" ==>
      if LiesInside(env, configPath, x) then TidyNames(false, CleanNames(x)[|CleanNames(BaseDir(env, configPath))|..])
      else TidyNames(IsAbs(x), CleanNames(x))
  }

  lemma RenderTrimmed(rooted: bool, names: seq<string>)
    requires Normal(rooted, names)
    ensures Trimmed(Render(rooted, names)) <==> TidyNames(rooted, names)
  {
    if names != [] {
      JoinEnds(names, "/");
    }
  }

  /** What is written has white space around it exactly if what is kept of the path has it at its edges. */
  lemma TidyIsTrimmed(env: Env, configPath: string, value: string)
    requires Usual(env) && Plain(value)
    ensures Trimmed(PersistConfigPath(env, configPath, value)) <==> TidyPath(env, configPath, value)
  {
    hide PersistConfigPath, Trim, TidyNames, Plain, Usual, LiesInside, Trimmed, BaseDir;
    var x := Trim(value);
    if x == "" {
      PersistBlank(env, configPath, value);
      BlankIsTrimmed();
    } else {
      var w := WhatIsWritten(env, configPath, value);
      CleanIsNormal(x);
      if w.Kept? {
        RenderTrimmed(IsAbs(x), CleanNames(x));
      } else {
        var rest := CleanNames(x)[|w.base|..];
        assert CleanNames(x) == w.base + rest;
        InsideIsNormal(w.base, rest);
        RenderTrimmed(false, rest);
      }
    }
  }

  lemma BlankIsTrimmed()
    ensures Trimmed("")
  {
  }

  /** Writing a path and reading it back gives the path meant, if and only if what is kept of it has no white
      space at its edges. */
  lemma RoundTrip(env: Env, configPath: string, value: string)
    requires Usual(env) && Plain(value)
    ensures ResolvePath(env, configPath, PersistConfigPath(env, configPath, value)) ==
            ResolvePath(env, configPath, value)
            <==> TidyPath(env, configPath, value)
  {
    hide ResolvePath, PersistConfigPath, Trimmed, TidyPath, Plain, Usual;
    RoundTripIfTrimmed(env, configPath, value);
    TidyIsTrimmed(env, configPath, value);
  }

  /** In particular for every path without white space. */
  lemma RoundTripWithoutSpace(env: Env, configPath: string, value: string)
    requires Usual(env) && Plain(value) && All(value, NotSpace)
    ensures ResolvePath(env, configPath, PersistConfigPath(env, configPath, value)) ==
            ResolvePath(env, configPath, value)
  {
    if Trim(value) != "" {
      var w := WhatIsWritten(env, configPath, value);
      WrittenChars(env, configPath, value, w, NotSpace);
    }
    ReadBack(env, configPath, value);
  }

  lemma PersistTrimmedTwice(env: Env, configPath: string, value: string)
    requires Usual(env) && Plain(value) && Trimmed(PersistConfigPath(env, configPath, value))
    ensures var p := PersistConfigPath(env, configPath, value);
            PersistConfigPath(env, configPath, p) == p
  {
    hide PersistConfigPath, CleanConfigPath, Clean, Trim, Trimmed, Plain, Usual;
    var x, p := Trim(value), PersistConfigPath(env, configPath, value);
    if x == "" {
      PersistBlank(env, configPath, value);
      TrimBlank();
      PersistBlank(env, configPath, p);
    } else {
      var w := WhatIsWritten(env, configPath, value);
      WrittenIsPlain(env, configPath, value, w);
      CleanIsClean(x);
      if w.Kept? {
        CleanWritten(env, p);
        PersistDepends(env, configPath, p, value);
      } else {
        InsideIsClean(env, configPath, x, w.base, p);
        CleanWritten(env, p);
        PersistRelative(env, configPath, p);
      }
    }
  }

  lemma WrittenIsNoLonger(env: Env, configPath: string, x: string, w: Written, p: string)
    requires x != "" && Writes(env, configPath, x, w, p)
    ensures |p| <= |x|
  {
    hide Normal, BaseDir, CleanNames, IsAbs, Clean, Render;
    CleanIsNoLonger(x);
    if w.Inside? {
      RestIsNoLonger(x, w.base);
    }
  }

  lemma RestIsNoLonger(x: string, base: seq<string>)
    requires x != "" && IsAbs(x) && base <= CleanNames(x)
    ensures |Render(false, CleanNames(x)[|base|..])| <= |x|
  {
    CleanIsNoLonger(x);
    var names := CleanNames(x);
    hide CleanNames, Join;
    var rest := names[|base|..];
    assert names == base + rest;
    if rest != [] {
      JoinWeight(rest);
      JoinWeight(names);
      WeightAdds(base, rest);
    }
  }

  lemma PersistTwiceIfTrimmed(env: Env, configPath: string, value: string)
    requires Usual(env) && Plain(value)
    ensures var p := PersistConfigPath(env, configPath, value);
            PersistConfigPath(env, configPath, p) == p <==> Trimmed(p)
  {
    var p := PersistConfigPath(env, configPath, value);
    if Trimmed(p) {
      PersistTrimmedTwice(env, configPath, value);
    } else {
      hide PersistConfigPath, Clean, Plain, Usual, Writes;
      if Trim(value) == "" {
        PersistBlank(env, configPath, value);
      } else {
        var w := WhatIsWritten(env, configPath, value);
        WrittenIsPlain(env, configPath, value, w);
        if Trim(p) == "" {
          PersistBlank(env, configPath, p);
        } else {
          var v := WhatIsWritten(env, configPath, p);
          WrittenIsNoLonger(env, configPath, Trim(p), v, PersistConfigPath(env, configPath, p));
        }
      }
    }
  }

  /** Writing again what was written changes nothing, on the same condition. */
  lemma PersistTwice(env: Env, configPath: string, value: string)
    requires Usual(env) && Plain(value)
    ensures var p := PersistConfigPath(env, configPath, value);
            PersistConfigPath(env, configPath, p) == p <==> TidyPath(env, configPath, value)
  {
    hide PersistConfigPath, Trimmed, TidyPath, Plain, Usual;
    PersistTwiceIfTrimmed(env, configPath, value);
    TidyIsTrimmed(env, configPath, value);
  }

  /** White space does get lost: "a /." is written as "a ", which reads as "a". */
  lemma SpaceLostExample(env: Env, configPath: string)
    requires Usual(env)
    ensures ResolvePath(env, configPath, PersistConfigPath(env, configPath, "a /.")) !=
            ResolvePath(env, configPath, "a /.")
  {
    SpaceExample();
    hide Clean, Trim, ResolvePath, PersistConfigPath, Normal, CleanNames;
    var w := WhatIsWritten(env, configPath, "a /.");
    RoundTripIfTrimmed(env, configPath, "a /.");
  }

  lemma SpaceExample()
    ensures Clean("a /.") == "a " && Trim("a /.") == "a /." && !IsAbs("a /.") && !Trimmed("a ") && Plain("a /.")
  {
    SplitExample();
    WalkExample();
    hide Split, Trim, Walk;
  }

  lemma SplitExample()
    ensures Split("a /.") == ["a ", "."]
  {
    SplitPlain("a ");
    SplitPlain(".");
    assert "a /." == "a " + "/" + ".";
    SplitSlash("a ", ".");
    hide Split;
  }

  lemma WalkExample()
    ensures Walk(false, [], ["a ", "."]) == ["a "]
  {
    assert Step(false, [], "a ") == ["a "] && Step(false, ["a "], ".") == ["a "];
    assert ["a ", "."][1..] == ["."] && ["."][1..] == [];
    hide Step;
    assert Walk(false, ["a "], ["."]) == Walk(false, ["a "], []);
  }

  lemma PersistBlank(env: Env, configPath: string, y: string)
    requires Trim(y) == ""
    ensures PersistConfigPath(env, configPath, y) == ""
  {
  }

  lemma TrimBlank()
    ensures Trim("") == ""
  {
  }

  lemma CleanWritten(env: Env, p: string)
    requires Usual(env) && Plain(p) && Trimmed(p) && p != "" && Clean(p) == p
    ensures CleanConfigPath(env, p) == p
  {
    assert Trim(p) == p;
    hide Clean, Trim;
  }

  /** The path counts only as it has been cleaned. */
  lemma PersistDepends(env: Env, configPath: string, y: string, z: string)
    requires CleanConfigPath(env, y) == CleanConfigPath(env, z)
    ensures PersistConfigPath(env, configPath, y) == PersistConfigPath(env, configPath, z)
  {
    hide CleanConfigPath, BaseDir, Rel, Clean, LeadsOut, IsAbs;
  }

  lemma PersistRelative(env: Env, configPath: string, p: string)
    requires CleanConfigPath(env, p) == p && Clean(p) == p && !IsAbs(p)
    ensures PersistConfigPath(env, configPath, p) == p
  {
    hide CleanConfigPath, BaseDir, Rel, Clean, LeadsOut, IsAbs;
  }

  lemma InsideIsClean(env: Env, configPath: string, x: string, base: seq<string>, p: string)
    requires Writes(env, configPath, x, Inside(base), p)
    ensures p != "" && Clean(p) == p && !IsAbs(p)
  {
    CleanIsNormal(x);
    var rest := CleanNames(x)[|base|..];
    assert CleanNames(x) == base + rest;
    InsideIsNormal(base, rest);
    RenderedIsClean(false, rest);
  }

  // ---------------------------------------------------------------- the base path of the control UI

  /** `normalizeControlUIBasePath`. */
  function NormalizeControlUIBasePath(raw: string): string {
    var base := Trim(raw);
    if base == "" then "/dashboard" else
      var clean := Clean(if IsAbs(base) then base else "/" + base);
      if clean == "." || clean == "/" then "/dashboard" else TrimSlashes(clean)
  }

  function TrimSlashes(s: string): string {
    if s != "" && s[|s| - 1] == '/' then TrimSlashes(s[..|s| - 1]) else s
  }

  /** What the base path is made of: where the text leads from the root, or the default if it leads nowhere. */
  function BasePathNames(raw: string): seq<string> {
    var names := Reached([], Split(Trim(raw)));
    if names == [] then ["dashboard"] else names
  }

  lemma FromTheRoot(base: string)
    ensures Reached([], Split(base)) == CleanNames(if IsAbs(base) then base else "/" + base)
  {
    var source := if IsAbs(base) then base else "/" + base;
    NothingIsNormal();
    ReachedNames([], base);
    if base != source {
      assert source == "" + "/" + base;
      SplitPlain("");
      SplitSlash("", base);
      WalkAdds(true, [], [""], Split(base));
      assert Walk(true, [], [""]) == [];
    }
  }

  lemma NothingLeadsNowhere()
    ensures Reached([], Split("")) == []
  {
    SplitPlain("");
    assert Entered([], "") == [] && [""][1..] == [];
    assert Reached([], [""]) == Reached([], []);
  }

  /** The base path is the path to that place: always absolute, clean and not the root. */
  lemma BasePathShape(raw: string)
    ensures var names := BasePathNames(raw);
            Normal(true, names) && names != [] && NormalizeControlUIBasePath(raw) == Render(true, names)
  {
    var base := Trim(raw);
    FromTheRoot(base);
    DefaultBasePath();
    hide Trim, Clean, CleanNames, Render, Normal, Split, Reached;
    if base == "" {
      NothingLeadsNowhere();
    } else {
      var source := if IsAbs(base) then base else "/" + base;
      CleanIsNormal(source);
      CleanIsRoot(source);
      if CleanNames(source) != [] {
        RenderEnd(CleanNames(source));
      }
    }
  }

  lemma DefaultBasePath()
    ensures Normal(true, ["dashboard"]) && Render(true, ["dashboard"]) == "/dashboard"
  {
  }

  lemma CleanIsRoot(source: string)
    requires IsAbs(source)
    ensures Clean(source) == Render(true, CleanNames(source))
    ensures Clean(source) == "/" <==> CleanNames(source) == []
    ensures Clean(source) != "."
  {
    CleanIsNormal(source);
    RenderedIsClean(true, []);
    if Clean(source) == "/" {
      RenderInjective(true, CleanNames(source), true, []);
    }
    CleanIsClean(source);
  }

  lemma {:induction false} RenderEnd(names: seq<string>)
    requires Normal(true, names) && names != []
    ensures var s := Join(names, "/"); s != "" && s[|s| - 1] != '/' && Render(true, names) == "/" + s
    ensures TrimSlashes(Render(true, names)) == Render(true, names)
  {
    if |names| > 1 {
      assert Normal(true, names[1..]);
      RenderEnd(names[1..]);
    }
  }

  lemma BasePathTwiceIfTrimmed(raw: string)
    ensures var r := NormalizeControlUIBasePath(raw);
            NormalizeControlUIBasePath(r) == r <==> Trimmed(r)
  {
    var r := NormalizeControlUIBasePath(raw);
    var names := BasePathNames(raw);
    BasePathShape(raw);
    RenderedIsClean(true, names);
    RenderEnd(names);
    if Trimmed(r) {
      assert Trim(r) == r;
      hide Clean, Trim, Render, TrimSlashes, Normal;
    } else {
      TrimEnd(r);
      CleanIsNoLonger(Trim(r));
      DefaultIsTrimmed();
      TrimSlashesShorter(Clean(Trim(r)));
      hide Clean, Trim, Render, TrimSlashes, Normal;
    }
  }

  /** Normalising it again changes nothing, if and only if the last name given does not end in white space. */
  lemma BasePathTwice(raw: string)
    ensures var r := NormalizeControlUIBasePath(raw);
            NormalizeControlUIBasePath(r) == r <==> EndsTidily(BasePathNames(raw))
  {
    hide NormalizeControlUIBasePath, BasePathNames, Trimmed, EndsTidily;
    BasePathTwiceIfTrimmed(raw);
    BasePathShape(raw);
    RenderTrimmed(true, BasePathNames(raw));
  }

  /** A base path for which it does change something. */
  lemma BasePathExample()
    ensures NormalizeControlUIBasePath("/a /.") == "/a " && NormalizeControlUIBasePath("/a ") == "/a"
  {
    RootedExamples();
    hide NormalizeControlUIBasePath;
    BasePathShape("/a /.");
    BasePathShape("/a ");
    hide BasePathNames, Normal;
    assert Render(true, ["a "]) == "/a " && Render(true, ["a"]) == "/a";
  }

  lemma RootedExamples()
    ensures BasePathNames("/a /.") == ["a "] && BasePathNames("/a ") == ["a"]
  {
    hide Trim, Walk, Split;
    TrimAfter();
    RootedNames();
    FromTheRoot("/a /.");
    FromTheRoot("/a");
    hide CleanNames, Reached;
    assert Trimmed("/a /.") && IsAbs("/a /.") && IsAbs("/a");
  }

  lemma TrimAfter()
    ensures Trim("/a ") == "/a"
  {
    hide TrimRight;
    assert TrimLeft("/a ") == "/a ";
    TrimRightSkips("/a ");
    assert "/a "[..2] == "/a" && Trimmed("/a");
  }

  lemma TrimRightSkips(s: string)
    requires s != "" && IsSpace(s[|s| - 1])
    ensures TrimRight(s) == TrimRight(s[..|s| - 1])
  {
  }

  lemma RootedNames()
    ensures CleanNames("/a /.") == ["a "] && CleanNames("/a") == ["a"]
  {
    hide Walk, Split;
    SplitExample();
    SplitPlain("a");
    SplitPlain("");
    SplitSlash("", "a /.");
    SplitSlash("", "a");
    assert "" + "/" + "a /." == "/a /." && "" + "/" + "a" == "/a";
    assert [""] + ["a ", "."] == ["", "a ", "."] && [""] + ["a"] == ["", "a"];
    RootedWalks();
  }

  lemma RootedWalks()
    ensures Walk(true, [], ["", "a ", "."]) == ["a "] && Walk(true, [], ["", "a"]) == ["a"]
  {
    assert ["", "a ", "."][1..] == ["a ", "."] && ["a ", "."][1..] == ["."] && ["."][1..] == [];
    assert ["", "a"][1..] == ["a"] && ["a"][1..] == [];
    assert Step(true, [], "") == [] && Step(true, [], "a ") == ["a "] && Step(true, ["a "], ".") == ["a "];
    assert Step(true, [], "a") == ["a"];
    hide Step;
    assert Walk(true, [], ["", "a ", "."]) == Walk(true, [], ["a ", "."]) == Walk(true, ["a "], ["."]) == Walk(true, ["a "], []);
    assert Walk(true, [], ["", "a"]) == Walk(true, [], ["a"]) == Walk(true, ["a"], []);
  }

  lemma DefaultIsTrimmed()
    ensures Trimmed("/dashboard")
  {
  }

  lemma TrimSlashesShorter(s: string)
    ensures |TrimSlashes(s)| <= |s|
  {
  }
}
