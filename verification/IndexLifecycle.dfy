/**
 The life of the indexes kept by `IndexManager` in pkg/index/index.go: a model of what each operation does
 to the records, the object whose methods update those records in place, and what every run keeps.
 Outcomes of the database and of the vector store are parameters: `None` is success.
 */
module IndexLifecycle {
  import opened Wrappers

  datatype Status = Pending | Creating | Ready | Updating | Rebuilding | Error | Deleting | Deleted

  /** What `Create` and `Update` are asked for. */
  datatype Config = Config(name: string, dimensions: int, distance: string, metadata: seq<string>,
    auxColumns: seq<string>, tableName: string)
  {
    function TableNameOrDefault(): string {
      if tableName != "" then tableName else "vec_" + name
    }
  }

  datatype Info = Info(name: string, tableName: string, dimensions: int, distance: string,
    metadata: seq<string>, auxColumns: seq<string>, status: Status, error: string, vectorCount: int)

  type Indexes = map<string, Info>

  type Outcome = Option<string>

  datatype Operation =
    | Create(config: Config, save: Outcome, init: Outcome, cleanup: Outcome, saveReady: Outcome)
    | Update(name: string, config: Config)
    | Delete(name: string, drop: Outcome, deleteMeta: Outcome)
    | Index(name: string, insert: Outcome, count: int)
    | RemoveVectors(name: string, failed: bool, count: int)
    | Rebuild(name: string, drop: Outcome, init: Outcome)

  // ---------------------------------------------------------------- what each operation does

  function Created(c: Config): Info {
    Info(c.name, c.TableNameOrDefault(), c.dimensions, if c.distance == "" then "cosine" else c.distance,
         c.metadata, c.auxColumns, Ready, "", 0)
  }

  function Updated(i: Info, c: Config): Info {
    if c.dimensions != 0 && c.dimensions != i.dimensions then
      i.(status := Error, error := "cannot change dimensions of existing index")
    else if c.distance != "" && c.distance != i.distance then
      i.(status := Error, error := "cannot change distance metric of existing index")
    else
      i.(metadata := if |c.metadata| > 0 then c.metadata else i.metadata,
         auxColumns := if |c.auxColumns| > 0 then c.auxColumns else i.auxColumns,
         status := Ready, error := "")
  }

  function Indexed(i: Info, insert: Outcome, count: int): Info {
    if insert.Some? then i.(status := Error, error := insert.value, vectorCount := count)
    else i.(status := Ready, error := "", vectorCount := count)
  }

  function Rebuilt(i: Info, drop: Outcome, init: Outcome): Info {
    if drop.Some? then i.(status := Error, error := drop.value)
    else if init.Some? then i.(status := Error, error := init.value)
    else i.(status := Ready, error := "", vectorCount := 0)
  }

  function Apply(m: Indexes, op: Operation): Indexes {
    match op
    case Create(c, save, init, _, saveReady) =>
      if c.name !in m && save.None? && init.None? && saveReady.None? then m[c.name := Created(c)] else m
    case Update(name, c) =>
      if name in m then m[name := Updated(m[name], c)] else m
    case Delete(name, drop, deleteMeta) =>
      if name !in m then m
      else if drop.Some? then m[name := m[name].(status := Error, error := drop.value)]
      else if deleteMeta.Some? then m[name := m[name].(status := Deleting)]
      else m - {name}
    case Index(name, insert, count) =>
      if name in m && m[name].status == Ready then m[name := Indexed(m[name], insert, count)] else m
    case RemoveVectors(name, failed, count) =>
      if name in m && !failed then m[name := m[name].(vectorCount := count)] else m
    case Rebuild(name, drop, init) =>
      if name in m then m[name := Rebuilt(m[name], drop, init)] else m
  }

  function Run(m: Indexes, ops: seq<Operation>): Indexes {
    if ops == [] then m else Apply(Run(m, ops[..|ops| - 1]), ops[|ops| - 1])
  }

  // ---------------------------------------------------------------- what every run keeps

  ghost predicate Settled(m: Indexes) {
    forall n :: n in m ==> m[n].status == Ready || m[n].status == Error
  }

  /** A deletion whose vectors are gone while its metadata row could not be removed. */
  predicate Stuck(m: Indexes, op: Operation) {
    op.Delete? && op.name in m && op.drop.None? && op.deleteMeta.Some?
  }

  /** An operation leaves every index Ready or Error if and only if it is not a stuck deletion. */
  lemma SettledKept(m: Indexes, op: Operation)
    requires Settled(m)
    ensures Settled(Apply(m, op)) <==> !Stuck(m, op)
  {
    if Stuck(m, op) {
      assert Apply(m, op)[op.name].status == Deleting;
    }
  }

  /** Over any run, all operations leave every index Ready or Error if and only if none of them is a stuck
      deletion. */
  lemma {:induction false} SettledRuns(m: Indexes, ops: seq<Operation>)
    requires Settled(m)
    ensures (forall k :: 0 <= k <= |ops| ==> Settled(Run(m, ops[..k]))) <==>
            (forall k :: 0 <= k < |ops| ==> !Stuck(Run(m, ops[..k]), ops[k]))
  {
    hide Settled, Stuck, Apply;
    forall k | 0 <= k < |ops| && Settled(Run(m, ops[..k]))
      ensures Settled(Run(m, ops[..k + 1])) <==> !Stuck(Run(m, ops[..k]), ops[k])
    {
      SettledKept(Run(m, ops[..k]), ops[k]);
      assert ops[..k + 1][..k] == ops[..k];
    }
    if forall k :: 0 <= k <= |ops| ==> Settled(Run(m, ops[..k])) {
      forall k | 0 <= k < |ops|
        ensures !Stuck(Run(m, ops[..k]), ops[k])
      {
        assert Settled(Run(m, ops[..k + 1]));
      }
    }
    if forall k :: 0 <= k < |ops| ==> !Stuck(Run(m, ops[..k]), ops[k]) {
      var k := 0;
      while k < |ops|
        invariant k <= |ops| && forall j :: 0 <= j <= k ==> Settled(Run(m, ops[..j]))
      {
        k := k + 1;
      }
    }
  }

  const DOCS: Config := Config("docs", 3, "", [], [], "")

  /** A deletion does get stuck: from one Ready index, a failing metadata deletion leaves it Deleting. */
  lemma StuckExample() returns (m: Indexes, op: Operation)
    ensures Settled(m) && !Settled(Apply(m, op))
  {
    m := map["docs" := Created(DOCS)];
    op := Delete("docs", None, Some("database is locked"));
    assert Apply(m, op)["docs"].status == Deleting;
  }

  /** The index that an operation is about. */
  function Subject(op: Operation): string {
    if op.Create? then op.config.name else op.name
  }

  /** An operation that can get an index out of a stuck deletion. */
  predicate Repairs(op: Operation) {
    op.Update? || op.Delete? || op.Rebuild?
  }

  /** A stuck index stays stuck over any run, and `Index` keeps being refused there, until another `Delete`,
      an `Update` or a `Rebuild` of it. */
  lemma {:induction false} StuckUntilRepaired(m: Indexes, ops: seq<Operation>, n: string)
    requires n in m && m[n].status == Deleting
    requires forall k :: 0 <= k < |ops| && Subject(ops[k]) == n ==> !Repairs(ops[k])
    ensures n in Run(m, ops) && Run(m, ops)[n].status == Deleting
    decreases |ops|
  {
    if ops != [] {
      StuckUntilRepaired(m, ops[..|ops| - 1], n);
    }
  }

  /** What stays the same from an index's creation to its deletion. */
  predicate SameShape(i: Info, j: Info) {
    i.name == j.name && i.tableName == j.tableName && i.dimensions == j.dimensions && i.distance == j.distance
  }

  lemma ShapeStays(m: Indexes, op: Operation, n: string)
    requires n in m && n in Apply(m, op)
    ensures SameShape(m[n], Apply(m, op)[n])
  {
  }

  /** Over any run during which an index always exists, its table, dimensions and distance do not change. */
  lemma {:induction false} ShapeKept(m: Indexes, ops: seq<Operation>, n: string)
    requires forall k :: 0 <= k <= |ops| ==> n in Run(m, ops[..k])
    ensures n in m && n in Run(m, ops) && SameShape(m[n], Run(m, ops)[n])
  {
    assert ops[..|ops|] == ops && n in Run(m, ops[..0]);
    if ops != [] {
      var init := ops[..|ops| - 1];
      forall k | 0 <= k <= |init|
        ensures n in Run(m, init[..k])
      {
        assert init[..k] == ops[..k];
      }
      hide Apply;
      ShapeKept(m, init, n);
      ShapeStays(Run(m, init), ops[|ops| - 1], n);
    }
  }

  /** A run that never is about an index leaves it alone. */
  lemma {:induction false} OthersUntouched(m: Indexes, ops: seq<Operation>, n: string)
    requires forall k :: 0 <= k < |ops| ==> Subject(ops[k]) != n
    ensures (n in m <==> n in Run(m, ops)) && (n in m ==> Run(m, ops)[n] == m[n])
    decreases |ops|
  {
    if ops != [] {
      OthersUntouched(m, ops[..|ops| - 1], n);
    }
  }

  // ---------------------------------------------------------------- what an index was asked for

  /** What became of an index since its creation: the configurations that it was given and took, the numbers
      of vectors reported for it, and how its last operation ended. */
  datatype Past = Past(configs: seq<Config>, counts: seq<int>, fault: Outcome, stuck: bool)

  const DIMENSIONS_FIXED := "cannot change dimensions of existing index"
  const DISTANCE_FIXED := "cannot change distance metric of existing index"

  predicate KeepsDimensions(past: Past, c: Config)
    requires past.configs != []
  {
    c.dimensions in {0, past.configs[0].dimensions}
  }

  predicate KeepsDistance(past: Past, c: Config)
    requires past.configs != []
  {
    c.distance in {"", past.configs[0].distance} || (past.configs[0].distance == "" && c.distance == "cosine")
  }

  function Counted(past: Past, count: int, fault: Outcome): Past {
    past.(counts := past.counts + [count], fault := fault, stuck := false)
  }

  function Faulty(past: Past, message: string): Past {
    past.(fault := Some(message), stuck := false)
  }

  /** What an operation adds to the past of an index that is there before and after. */
  function Later(past: Past, op: Operation): Past
    requires past.configs != []
  {
    match op
    case Create(_, _, _, _, _) => past
    case Update(_, c) =>
      if !KeepsDimensions(past, c) then Faulty(past, DIMENSIONS_FIXED)
      else if !KeepsDistance(past, c) then Faulty(past, DISTANCE_FIXED)
      else past.(configs := past.configs + [c], fault := None, stuck := false)
    case Delete(_, drop, _) => if drop.Some? then Faulty(past, drop.value) else past.(stuck := true)
    case Index(_, insert, count) => if past.fault.Some? || past.stuck then past else Counted(past, count, insert)
    case RemoveVectors(_, failed, count) => if failed then past else past.(counts := past.counts + [count])
    case Rebuild(_, drop, init) =>
      if drop.Some? then Faulty(past, drop.value)
      else if init.Some? then Faulty(past, init.value)
      else Counted(past, 0, None)
  }

  type Pasts = map<string, Past>

  ghost predicate Begun(h: Pasts) {
    forall n :: n in h ==> h[n].configs != [] && h[n].counts != []
  }

  function Remembered(h: Pasts, op: Operation): Pasts
    requires Begun(h)
  {
    match op
    case Create(c, save, init, _, saveReady) =>
      if c.name in h || save.Some? || init.Some? || saveReady.Some? then h
      else h[c.name := Past([c], [0], None, false)]
    case Delete(name, None, None) => h - {name}
    case _ => if Subject(op) in h then h[Subject(op) := Later(h[Subject(op)], op)] else h
  }

  /** The last list that is not empty, of one kind of column in the configurations. */
  ghost predicate LastGiven(configs: seq<Config>, columns: Config -> seq<string>, r: seq<string>) {
    || (r == [] && forall k :: 0 <= k < |configs| ==> columns(configs[k]) == [])
    || exists k :: 0 <= k < |configs| && r == columns(configs[k]) != [] &&
                   forall j :: k < j < |configs| ==> columns(configs[j]) == []
  }

  const MetadataOf: Config -> seq<string> := (c: Config) => c.metadata
  const AuxColumnsOf: Config -> seq<string> := (c: Config) => c.auxColumns

  /** A record's shape is that of its creation, and its columns are as last given. */
  ghost predicate ShapeFollows(i: Info, n: string, configs: seq<Config>)
    requires configs != []
  {
    var first := configs[0];
    && i.name == first.name == n && i.dimensions == first.dimensions
    && (first.tableName != "" ==> i.tableName == first.tableName)
    && (first.tableName == "" ==> i.tableName == "vec_" + n)
    && (first.distance != "" ==> i.distance == first.distance)
    && (first.distance == "" ==> i.distance == "cosine")
    && LastGiven(configs, MetadataOf, i.metadata) && LastGiven(configs, AuxColumnsOf, i.auxColumns)
  }

  /** Its count is as last reported, and its status and error as its last operation ended. */
  ghost predicate StateFollows(i: Info, past: Past)
    requires past.counts != []
  {
    && i.vectorCount == past.counts[|past.counts| - 1]
    && (i.status == Deleting <==> past.stuck) && (i.status == Ready <==> past.fault.None? && !past.stuck)
    && (past.fault.Some? && !past.stuck ==> i.status == Error)
    && i.error == if past.fault.Some? then past.fault.value else ""
  }

  ghost predicate Follows(i: Info, n: string, past: Past)
    requires past.configs != [] && past.counts != []
  {
    ShapeFollows(i, n, past.configs) && StateFollows(i, past)
  }

  ghost predicate AllFollow(m: Indexes, h: Pasts) {
    m.Keys == h.Keys && Begun(h) && forall n :: n in m ==> Follows(m[n], n, h[n])
  }

  lemma GivenNext(configs: seq<Config>, columns: Config -> seq<string>, r: seq<string>, c: Config)
    requires LastGiven(configs, columns, r)
    ensures LastGiven(configs + [c], columns, if columns(c) != [] then columns(c) else r)
  {
    var all := configs + [c];
    assert all[|configs|] == c;
    if columns(c) == [] && r != [] {
      var k :| 0 <= k < |configs| && r == columns(configs[k]) != [] &&
               forall j :: k < j < |configs| ==> columns(configs[j]) == [];
      assert all[k] == configs[k];
    }
  }

  /** The record of an update that is taken, or refused for the dimensions first and the distance then. */
  lemma UpdateFollows(i: Info, n: string, past: Past, c: Config)
    requires past.configs != [] && past.counts != [] && Follows(i, n, past)
    ensures var j := Updated(i, c);
            if !KeepsDimensions(past, c) then Follows(j, n, Faulty(past, DIMENSIONS_FIXED))
            else if !KeepsDistance(past, c) then Follows(j, n, Faulty(past, DISTANCE_FIXED))
            else Follows(j, n, past.(configs := past.configs + [c], fault := None, stuck := false))
  {
    hide ShapeFollows, LastGiven, Updated, KeepsDimensions, KeepsDistance;
    UpdateIs(i, n, past, c);
    var j := Updated(i, c);
    if KeepsDimensions(past, c) && KeepsDistance(past, c) {
      NewColumns(i, n, past.configs, c, j);
    } else {
      ShapeFollowsOn(i, j, n, past.configs);
    }
  }

  lemma UpdateIs(i: Info, n: string, past: Past, c: Config)
    requires past.configs != [] && ShapeFollows(i, n, past.configs)
    ensures Updated(i, c) ==
            if !KeepsDimensions(past, c) then i.(status := Error, error := DIMENSIONS_FIXED)
            else if !KeepsDistance(past, c) then i.(status := Error, error := DISTANCE_FIXED)
            else i.(metadata := Newer(c.metadata, i.metadata), auxColumns := Newer(c.auxColumns, i.auxColumns),
                    status := Ready, error := "")
  {
    hide LastGiven;
  }

  function Newer(given: seq<string>, last: seq<string>): seq<string> {
    if given != [] then given else last
  }

  lemma NewColumns(i: Info, n: string, configs: seq<Config>, c: Config, j: Info)
    requires configs != [] && ShapeFollows(i, n, configs) && SameShape(i, j)
    requires j.metadata == Newer(c.metadata, i.metadata) && j.auxColumns == Newer(c.auxColumns, i.auxColumns)
    ensures ShapeFollows(j, n, configs + [c])
  {
    GivenNext(configs, MetadataOf, i.metadata, c);
    GivenNext(configs, AuxColumnsOf, i.auxColumns, c);
    hide LastGiven;
    assert (configs + [c])[0] == configs[0];
  }

  lemma CreationFollows(c: Config)
    ensures Follows(Created(c), c.name, Past([c], [0], None, false))
  {
    assert [c][0] == c;
    assert LastGiven([c], MetadataOf, c.metadata) && LastGiven([c], AuxColumnsOf, c.auxColumns);
  }

  /** The record after an operation on an index that is there before and after. */
  function Altered(i: Info, op: Operation): Info {
    match op
    case Create(_, _, _, _, _) => i
    case Update(_, c) => Updated(i, c)
    case Delete(_, drop, _) =>
      if drop.Some? then i.(status := Error, error := drop.value) else i.(status := Deleting)
    case Index(_, insert, count) => if i.status == Ready then Indexed(i, insert, count) else i
    case RemoveVectors(_, failed, count) => if failed then i else i.(vectorCount := count)
    case Rebuild(_, drop, init) => Rebuilt(i, drop, init)
  }

  lemma ApplyAlters(m: Indexes, op: Operation)
    requires !op.Create? && op.name in m
    ensures Apply(m, op) ==
            if op == Delete(op.name, None, None) then m - {op.name} else m[op.name := Altered(m[op.name], op)]
  {
    hide Updated, Rebuilt, Indexed;
    assert m[op.name := m[op.name]] == m;
  }

  lemma AlteredFollows(i: Info, n: string, past: Past, op: Operation)
    requires past.configs != [] && past.counts != [] && Follows(i, n, past)
    ensures Later(past, op).configs != [] && Later(past, op).counts != []
    ensures Follows(Altered(i, op), n, Later(past, op))
  {
    if op.Update? {
      UpdateFollows(i, n, past, op.config);
    } else {
      StateAlters(i, past, op);
      hide Altered, Later, StateFollows;
      ShapeFollowsOn(i, Altered(i, op), n, past.configs);
    }
  }

  lemma ShapeFollowsOn(i: Info, j: Info, n: string, configs: seq<Config>)
    requires configs != [] && ShapeFollows(i, n, configs)
    requires SameShape(i, j) && i.metadata == j.metadata && i.auxColumns == j.auxColumns
    ensures ShapeFollows(j, n, configs)
  {
    hide LastGiven;
  }

  lemma StateAlters(i: Info, past: Past, op: Operation)
    requires past.configs != [] && past.counts != [] && StateFollows(i, past) && !op.Update?
    ensures var j, later := Altered(i, op), Later(past, op);
            && later.counts != [] && StateFollows(j, later)
            && later.configs == past.configs && SameShape(i, j) && i.metadata == j.metadata && i.auxColumns == j.auxColumns
  {
  }

  /** Every operation does to the records what it adds to their pasts. */
  lemma ApplyFollows(m: Indexes, h: Pasts, op: Operation)
    requires AllFollow(m, h)
    ensures Begun(Remembered(h, op)) && AllFollow(Apply(m, op), Remembered(h, op))
  {
    hide Created, Follows, Later, Altered;
    if op.Create? {
      var n, i, past := op.config.name, Created(op.config), Past([op.config], [0], None, false);
      CreationFollows(op.config);
      AllFollowOn(m, h, n, i, past);
      hide AllFollow, Begun;
    } else {
      hide Apply;
      if op.name in m {
        var i, past := Altered(m[op.name], op), Later(h[op.name], op);
        AlteredFollows(m[op.name], op.name, h[op.name], op);
        ApplyAlters(m, op);
        AllFollowOn(m, h, op.name, i, past);
        hide AllFollow, Begun;
      } else {
        ApplyNothing(m, op);
      }
    }
  }

  lemma AllFollowOn(m: Indexes, h: Pasts, n: string, i: Info, past: Past)
    requires AllFollow(m, h) && past.configs != [] && past.counts != [] && Follows(i, n, past)
    ensures AllFollow(m[n := i], h[n := past]) && AllFollow(m - {n}, h - {n})
  {
    hide Follows;
  }

  lemma ApplyNothing(m: Indexes, op: Operation)
    requires !op.Create? && op.name !in m
    ensures Apply(m, op) == m
  {
  }

  ghost function PastsOf(ops: seq<Operation>): (h: Pasts)
    ensures Begun(h)
    decreases |ops|
  {
    if ops == [] then map[] else
      var before := PastsOf(ops[..|ops| - 1]);
      BegunStays(before, ops[|ops| - 1]);
      Remembered(before, ops[|ops| - 1])
  }

  lemma BegunStays(h: Pasts, op: Operation)
    requires Begun(h)
    ensures Begun(Remembered(h, op))
  {
  }

  /** Over every run from no index at all, the records are what the operations so far make of them. */
  lemma {:induction false} RunFollows(ops: seq<Operation>)
    ensures AllFollow(Run(map[], ops), PastsOf(ops))
    decreases |ops|
  {
    if ops != [] {
      hide AllFollow, Apply, Remembered;
      RunFollows(ops[..|ops| - 1]);
      ApplyFollows(Run(map[], ops[..|ops| - 1]), PastsOf(ops[..|ops| - 1]), ops[|ops| - 1]);
    }
  }

  // ---------------------------------------------------------------- what the database holds

  /** The collections of vectors that there are, and the names with a metadata row. */
  datatype Stored = Stored(tables: set<string>, rows: set<string>)

  function WithTable(d: Stored, table: string, there: bool): Stored {
    d.(tables := if there then d.tables + {table} else d.tables - {table})
  }

  /** What an operation does there. Where a call to the vector store fails, `there` says whether the
      collection exists afterwards; an insertion makes one that is missing, if it gets that far. */
  function StoredAfter(m: Indexes, d: Stored, op: Operation, there: bool): Stored {
    match op
    case Create(c, save, init, cleanup, _) =>
      if c.name in m || save.Some? then d else
        var t := c.TableNameOrDefault();
        var e := WithTable(d, t, init.None? || t in d.tables || there);
        e.(rows := if init.Some? && cleanup.None? then d.rows - {c.name} else d.rows + {c.name})
    case Delete(name, drop, deleteMeta) =>
      if name !in m then d else
        var e := WithTable(d, m[name].tableName, drop.Some? && there);
        if drop.None? && deleteMeta.None? then e.(rows := d.rows - {name}) else e
    case Index(name, _, _) =>
      if name in m && m[name].status == Ready then WithTable(d, m[name].tableName, m[name].tableName in d.tables || there)
      else d
    case Rebuild(name, drop, init) =>
      if name in m then WithTable(d, m[name].tableName, if drop.Some? then there else init.None? || there) else d
    case _ => d
  }

  /** Every index that is Ready has its collection. */
  ghost predicate Backed(m: Indexes, d: Stored) {
    forall n :: n in m && m[n].status == Ready ==> m[n].tableName in d.tables
  }

  /** Another index is Ready on the same collection; nothing in the code keeps two from naming the same. */
  ghost predicate Shared(m: Indexes, name: string)
    requires name in m
  {
    exists n :: n in m && n != name && m[n].status == Ready && m[n].tableName == m[name].tableName
  }

  /** An update that is accepted for an index whose collection is gone, or a deletion or a rebuilding that
      takes away the collection of another index. */
  ghost predicate Unbacks(m: Indexes, d: Stored, op: Operation, there: bool) {
    match op
    case Update(name, c) =>
      && name in m && m[name].tableName !in d.tables
      && (c.dimensions == 0 || c.dimensions == m[name].dimensions) && (c.distance == "" || c.distance == m[name].distance)
    case Delete(name, drop, _) => name in m && (drop.None? || !there) && Shared(m, name)
    case Rebuild(name, drop, init) => name in m && (drop.Some? || init.Some?) && !there && Shared(m, name)
    case _ => false
  }

  lemma TakenAway(m: Indexes, d: Stored, name: string, i: Info)
    requires Backed(m, d) && name in m && i.tableName == m[name].tableName && i.status != Ready
    ensures Backed(m[name := i], WithTable(d, i.tableName, false)) <==> !Shared(m, name)
    ensures Backed(m - {name}, WithTable(d, i.tableName, false)) <==> !Shared(m, name)
  {
    if Shared(m, name) {
      var n :| n in m && n != name && m[n].status == Ready && m[n].tableName == m[name].tableName;
      assert n in m[name := i] && n in m - {name};
    }
  }

  /** An operation leaves every Ready index with its collection, if and only if it is not one of those. */
  lemma BackedKept(m: Indexes, d: Stored, op: Operation, there: bool)
    requires Backed(m, d)
    ensures Backed(Apply(m, op), StoredAfter(m, d, op, there)) <==> !Unbacks(m, d, op, there)
  {
    match op
    case Delete(name, drop, _) =>
      if name in m {
        var i := m[name].(status := if drop.Some? then Error else Deleting, error := if drop.Some? then drop.value else m[name].error);
        TakenAway(m, d, name, i);
      }
    case Rebuild(name, drop, init) =>
      if name in m && (drop.Some? || init.Some?) {
        TakenAway(m, d, name, Rebuilt(m[name], drop, init));
      }
    case Update(name, c) =>
      if Unbacks(m, d, op, there) {
        assert name in Apply(m, op) && Apply(m, op)[name].status == Ready;
      }
    case Create(_, _, _, _, _) =>
    case Index(_, _, _) =>
    case RemoveVectors(_, _, _) =>
  }

  datatype Event = Event(op: Operation, there: bool)

  ghost predicate StaysBacked(m: Indexes, d: Stored, events: seq<Event>)
    decreases events
  {
    && Backed(m, d)
    && (events == [] ||
        StaysBacked(Apply(m, events[0].op), StoredAfter(m, d, events[0].op, events[0].there), events[1..]))
  }

  ghost predicate NoneUnbacks(m: Indexes, d: Stored, events: seq<Event>)
    decreases events
  {
    events == [] ||
    (&& !Unbacks(m, d, events[0].op, events[0].there)
     && NoneUnbacks(Apply(m, events[0].op), StoredAfter(m, d, events[0].op, events[0].there), events[1..]))
  }

  /** Along any run every Ready index always has its collection, if and only if no operation is one of those. */
  lemma {:induction false} BackedRuns(m: Indexes, d: Stored, events: seq<Event>)
    requires Backed(m, d)
    ensures StaysBacked(m, d, events) <==> NoneUnbacks(m, d, events)
    decreases events
  {
    if events != [] {
      hide Backed, Unbacks, Apply, StoredAfter;
      var op, there := events[0].op, events[0].there;
      BackedKept(m, d, op, there);
      if !Unbacks(m, d, op, there) {
        BackedRuns(Apply(m, op), StoredAfter(m, d, op, there), events[1..]);
      }
    }
  }

  /** An index that is Ready without a collection: its deletion got stuck, and an update made it Ready again. */
  lemma UnbackedExample() returns (m: Indexes, d: Stored, op: Operation)
    ensures m == Apply(map["docs" := Created(DOCS)], Delete("docs", None, Some("database is locked")))
    ensures d == StoredAfter(map["docs" := Created(DOCS)], Stored({"vec_docs"}, {"docs"}),
                             Delete("docs", None, Some("database is locked")), false)
    ensures op == Update("docs", DOCS) && Backed(m, d) && !Backed(Apply(m, op), StoredAfter(m, d, op, false))
  {
    m := Apply(map["docs" := Created(DOCS)], Delete("docs", None, Some("database is locked")));
    d := Stored({}, {"docs"});
    op := Update("docs", DOCS);
    assert DOCS.TableNameOrDefault() == "vec_docs";
    assert {"vec_docs"} - {"vec_docs"} == {};
    BackedKept(m, d, op, false);
  }

  /** Two indexes on one collection: deleting one takes it away from the other, which stays Ready. */
  lemma SharedExample() returns (m: Indexes, d: Stored, op: Operation)
    ensures Backed(m, d) && m.Keys == {"docs", "notes"} && op == Delete("docs", None, None)
    ensures "notes" in Apply(m, op) && Apply(m, op)["notes"].status == Ready && StoredAfter(m, d, op, false).tables == {}
  {
    var notes := Config("notes", 3, "", [], [], "vec_docs");
    m := map["docs" := Created(DOCS), "notes" := Created(notes)];
    d := Stored({"vec_docs"}, {"docs", "notes"});
    op := Delete("docs", None, None);
    assert DOCS.TableNameOrDefault() == "vec_docs";
    assert "notes" != "docs" by {
      assert "notes"[0] != "docs"[0];
    }
  }

  /** The names with a metadata row are those of the indexes: a restart brings back just these. */
  predicate RowsMatch(m: Indexes, d: Stored) {
    d.rows == m.Keys
  }

  /** A creation that fails after its row has been written: the row could not be removed after the collection
      could not be made, or it could not be written again after that. */
  predicate LeavesRow(m: Indexes, op: Operation) {
    op.Create? && op.config.name !in m && op.save.None? && if op.init.Some? then op.cleanup.Some? else op.saveReady.Some?
  }

  /** The metadata rows agree with the indexes after an operation, if and only if it is no such creation. */
  lemma RowsKept(m: Indexes, d: Stored, op: Operation, there: bool)
    requires RowsMatch(m, d)
    ensures RowsMatch(Apply(m, op), StoredAfter(m, d, op, there)) <==> !LeavesRow(m, op)
  {
    if op.Create? && op.config.name !in m {
      assert op.config.name in d.rows + {op.config.name};
      assert d.rows - {op.config.name} == d.rows;
    }
  }

  /** A creation that leaves its row behind. */
  lemma RowLeftExample() returns (op: Operation)
    ensures var d := StoredAfter(map[], Stored({}, {}), op, false);
            op.Create? && Apply(map[], op) == map[] && d.rows == {op.config.name}
  {
    op := Create(DOCS, None, None, None, Some("database is locked"));
  }

  // ---------------------------------------------------------------- removing vectors

  datatype Stage = CountBefore | DeleteOne | CountAfter

  /** A call to the vector store that fails: at which id, and which of its three calls. */
  datatype Failing = NoFailure | FailsAt(at: nat, stage: Stage)

  function Without(store: set<string>, ids: seq<string>): set<string> {
    store - (set id | id in ids)
  }

  /** The store after the first `k` ids have been removed. */
  function Left(store: set<string>, ids: seq<string>, k: nat): set<string>
    requires k <= |ids|
  {
    Without(store, ids[..k])
  }

  /** The failing call is reached: the loop stops early once the store is empty. */
  predicate Reached(store: set<string>, ids: seq<string>, failing: Failing) {
    match failing
    case NoFailure => false
    case FailsAt(k, stage) =>
      && k < |ids|
      && if stage == CountBefore then k == 0 || Left(store, ids, k - 1) != {} else Left(store, ids, k) != {}
  }

  lemma LeftShrinks(store: set<string>, ids: seq<string>, j: nat, k: nat)
    requires j <= k <= |ids|
    ensures Left(store, ids, k) <= Left(store, ids, j)
  {
    assert forall id :: id in ids[..j] ==> id in ids[..k];
  }

  lemma LeftEnds(store: set<string>, ids: seq<string>)
    ensures Left(store, ids, 0) == store && Left(store, ids, |ids|) == Without(store, ids)
  {
    assert ids[..|ids|] == ids;
  }

  lemma OneLess(store: set<string>, ids: seq<string>, k: nat)
    requires k < |ids|
    ensures Left(store, ids, k + 1) == Left(store, ids, k) - {ids[k]}
    ensures |Left(store, ids, k)| - |Left(store, ids, k + 1)| == if ids[k] in Left(store, ids, k) then 1 else 0
  {
    assert ids[..k + 1] == ids[..k] + [ids[k]];
  }

  lemma EmptiedEarly(store: set<string>, ids: seq<string>, k: nat, failing: Failing)
    requires k < |ids| && Left(store, ids, k) == {}
    requires failing.FailsAt? ==> k <= failing.at && failing != FailsAt(k, CountBefore)
    ensures !Reached(store, ids, failing) && Without(store, ids) == {}
  {
    LeftEnds(store, ids);
    LeftShrinks(store, ids, k, |ids|);
    if failing.FailsAt? && failing.at < |ids| {
      LeftShrinks(store, ids, k, failing.at);
      if k < failing.at {
        LeftShrinks(store, ids, k, failing.at - 1);
      }
    }
  }

  lemma NotReached(store: set<string>, ids: seq<string>, failing: Failing)
    requires failing.FailsAt? ==> failing.at >= |ids|
    ensures !Reached(store, ids, failing)
  {
  }

  /** Where the loop stops at a failing call: the ids before have been removed and counted; if it is the
      second count that fails, one more has been removed but not counted. */
  predicate StoppedAt(store: set<string>, ids: seq<string>, failing: Failing, removed: nat, left: set<string>) {
    && failing.FailsAt? && failing.at < |ids|
    && removed == |store| - |Left(store, ids, failing.at)|
    && left == Left(store, ids, if failing.stage == CountAfter then failing.at + 1 else failing.at)
  }

  lemma Stops(store: set<string>, ids: seq<string>, k: nat, stage: Stage, removed: nat, left: set<string>)
    requires k < |ids| && removed == |store| - |Left(store, ids, k)|
    requires left == Left(store, ids, if stage == CountAfter then k + 1 else k)
    requires if stage == CountBefore then k > 0 ==> Left(store, ids, k - 1) != {} else Left(store, ids, k) != {}
    ensures Reached(store, ids, FailsAt(k, stage)) && StoppedAt(store, ids, FailsAt(k, stage), removed, left)
  {
  }

  /** The loop of `RemoveVectors` over the ids in the vector store: it removes exactly those asked for and
      counts each that was there once, however often it is asked for. */
  method RemoveAll(store: set<string>, ids: seq<string>, failing: Failing)
    returns (removed: nat, left: set<string>, failed: bool)
    ensures failed <==> Reached(store, ids, failing)
    ensures if failed then StoppedAt(store, ids, failing, removed, left)
            else left == Without(store, ids) && removed == |store| - |left|
  {
    hide Without, Left, Reached, StoppedAt;
    removed, left, failed := 0, store, false;
    LeftEnds(store, ids);
    var k := 0;
    while k < |ids|
      invariant k <= |ids|
      invariant left == Left(store, ids, k) && removed == |store| - |left|
      invariant failing.FailsAt? ==> k <= failing.at
      invariant k > 0 ==> Left(store, ids, k - 1) != {}
    {
      if failing == FailsAt(k, CountBefore) {
        Stops(store, ids, k, CountBefore, removed, left);
        return removed, left, true;
      }
      if |left| == 0 {
        EmptiedEarly(store, ids, k, failing);
        return;
      }
      if failing == FailsAt(k, DeleteOne) {
        Stops(store, ids, k, DeleteOne, removed, left);
        return removed, left, true;
      }
      var before := |left|;
      OneLess(store, ids, k);
      left := left - {ids[k]};
      if failing == FailsAt(k, CountAfter) {
        Stops(store, ids, k, CountAfter, removed, left);
        return removed, left, true;
      }
      if |left| < before {
        removed := removed + 1;
      }
      AllStages(failing);
      k := k + 1;
    }
    NotReached(store, ids, failing);
  }

  lemma AllStages(failing: Failing)
    ensures failing.FailsAt? ==>
              failing.stage == CountBefore || failing.stage == DeleteOne || failing.stage == CountAfter
  {
  }
}
