/**
 The versioned canvas store of pkg/canvas/store.go as a state machine over its memory and its files, and
 the proof that it refines a store that never forgets: for every canvas one full list of contents.

 Files are readable JSON documents: one entry file per canvas id, and per id a directory of version files
 named by their version number. Memory is what the store keeps under its lock.
 */
module CanvasModel {
  import opened Wrappers
  import opened Text
  import UnixPath

  datatype Entry = Entry(id: string, name: string, content: string, kind: string,
                         createdAt: int, updatedAt: int, version: nat)

  datatype Version = Version(number: nat, content: string, timestamp: int, agent: string)

  datatype Memory = Memory(entries: map<string, Entry>, versions: map<string, seq<Version>>)

  datatype Disk = Disk(entryFiles: map<string, Entry>, versionDirs: map<string, map<nat, Version>>)

  datatype State = State(mem: Memory, disk: Disk)

  datatype Error = InvalidId | NoRandomness | NotFound | CannotCreateDir | CannotWriteVersion | CannotWriteEntry

  /** How the file-system calls end: one of those of `saveVersionLocked` fails, or the one of `saveEntry`, or
      none. A write that fails leaves the file as it was. */
  datatype Saving = Saved | MkdirFails | WriteFails | EntryFails

  predicate Archives(saving: Saving) {
    saving.Saved? || saving.EntryFails?
  }

  // ---------------------------------------------------------------- ids

  predicate IdChar(c: char) {
    'A' <= c <= 'Z' || 'a' <= c <= 'z' || '0' <= c <= '9' || c == '.' || c == '_' || c == '-'
  }

  /** `validateCanvasID`: the id is judged without the white space around it. */
  predicate ValidId(id: string) {
    var t := Trim(id);
    t != "" && t != "." && t != ".." && forall i :: 0 <= i < |t| ==> IdChar(t[i])
  }

  /** The ASCII codes of '-' and '.', the digits, the capitals, '_' and the small letters. */
  predicate IdCode(n: int) {
    n in {45, 46, 95} || 48 <= n <= 57 || 65 <= n <= 90 || 97 <= n <= 122
  }

  /** An id is accepted exactly if, without the white space around it, it consists of those characters, and is
      neither empty nor the name of a directory itself or of its parent. */
  lemma ValidIdMeans(id: string)
    ensures ValidId(id) <==>
            !Blank(id) && Trim(id) !in {".", ".."} && forall i :: 0 <= i < |Trim(id)| ==> IdCode(Trim(id)[i] as int)
  {
    BlankIsEmpty(id);
    hide Trim, Blank;
  }

  /** The path of an accepted id leads to a file or directory of its own in the directory it is joined to. */
  lemma ValidIdStaysInside(id: string, at: seq<string>)
    requires ValidId(id)
    ensures UnixPath.Reached(at, UnixPath.Split(id)) == at + [id]
  {
    if '/' in id {
      SlashStays(id);
      assert false;
    }
    UnixPath.SplitPlain(id);
    assert Trim("") == "" && Trim(".") == "." && Trim("..") == "..";
    hide Trim;
    assert UnixPath.Entered(at, id) == at + [id];
    assert UnixPath.Reached(at + [id], []) == at + [id];
  }

  /** Trimming only takes white space away. */
  lemma SlashStays(id: string)
    requires '/' in id
    ensures '/' in Trim(id)
  {
    TrimLeftKeeps(id);
    TrimRightKeeps(TrimLeft(id));
  }

  lemma {:induction false} TrimLeftKeeps(s: string)
    requires '/' in s
    ensures '/' in TrimLeft(s)
  {
    if IsSpace(s[0]) {
      assert s == [s[0]] + s[1..];
      TrimLeftKeeps(s[1..]);
    }
  }

  lemma {:induction false} TrimRightKeeps(s: string)
    requires '/' in s
    ensures '/' in TrimRight(s)
  {
    var n := |s| - 1;
    if IsSpace(s[n]) {
      assert s == s[..n] + [s[n]];
      TrimRightKeeps(s[..n]);
    }
  }

  // ---------------------------------------------------------------- operations

  function VersionsOf(m: Memory, id: string): seq<Version> {
    if id in m.versions then m.versions[id] else []
  }

  function DirOf(d: Disk, id: string): map<nat, Version> {
    if id in d.versionDirs then d.versionDirs[id] else map[]
  }

  function Last<T>(s: seq<T>, n: nat): (r: seq<T>)
    ensures |r| == if |s| <= n then |s| else n
    ensures r == s[|s| - |r|..]
  {
    if |s| <= n then s else s[|s| - n..]
  }

  function Numbers(vs: seq<Version>): set<nat> {
    set v | v in vs :: v.number
  }

  /** `saveVersionLocked` when its writes succeed: the entry's content becomes a version, on disk and in
      memory, and the oldest versions beyond `max` go from both. */
  function Archive(s: State, max: nat, e: Entry, now: int, agent: string): State {
    var v := Version(e.version, e.content, now, agent);
    var all := VersionsOf(s.mem, e.id) + [v];
    var kept := Last(all, max);
    var dir := DirOf(s.disk, e.id)[v.number := v] - Numbers(all[..|all| - |kept|]);
    State(s.mem.(versions := s.mem.versions[e.id := kept]),
          s.disk.(versionDirs := s.disk.versionDirs[e.id := dir]))
  }

  /** Archiving does not look at the other entries. */
  lemma ArchiveIgnoresEntries(s: State, max: nat, e: Entry, now: int, agent: string)
    ensures var t := Archive(State(Memory(map[], s.mem.versions), s.disk), max, e, now, agent);
            Archive(s, max, e, now, agent) == State(Memory(s.mem.entries, t.mem.versions), t.disk)
  {
    hide Last, Numbers;
  }

  /** `saveVersionLocked` when its writes fail: at most an empty directory is left behind. */
  function ArchiveFails(s: State, id: string, saving: Saving): State {
    if saving.WriteFails? then s.(disk := s.disk.(versionDirs := s.disk.versionDirs[id := DirOf(s.disk, id)])) else s
  }

  /** An entry's new value, in memory and, if it can be written, in the entry's file. */
  function Store(s: State, id: string, e: Entry, saving: Saving): State {
    State(s.mem.(entries := s.mem.entries[id := e]),
          if saving.EntryFails? then s.disk else s.disk.(entryFiles := s.disk.entryFiles[e.id := e]))
  }

  /** What `Push` and `Reset` do to a canvas that is there when its version can be written. */
  function Archived(s: State, max: nat, id: string, content: string, now: int, savedAt: int, agent: string,
                    saving: Saving): (t: State)
    ensures id in s.mem.entries ==> id in t.mem.entries
  {
    if id !in s.mem.entries then s else
    var e := s.mem.entries[id];
    Store(Archive(s, max, e, savedAt, agent), id,
          e.(content := content, updatedAt := now, version := e.version + 1), saving)
  }

  lemma ArchivedIs(s: State, max: nat, id: string, content: string, now: int, savedAt: int, agent: string,
                   saving: Saving, e: Entry)
    requires id in s.mem.entries && s.mem.entries[id] == e
    ensures Archived(s, max, id, content, now, savedAt, agent, saving) ==
            Store(Archive(s, max, e, savedAt, agent), id,
                  e.(content := content, updatedAt := now, version := e.version + 1), saving)
  {
    hide Archive, Store;
  }

  datatype Request = Request(id: string, name: string, content: string, kind: string, agent: string)

  /** The id a push works on: a blank one is replaced by a generated one. */
  function PushId(r: Request, generated: Option<string>): Result<string, Error> {
    if Trim(r.id) == "" then (if generated.None? then Err(NoRandomness) else Ok(generated.value)) else Ok(r.id)
  }

  function NewEntry(r: Request, id: string, now: int): (e: Entry)
    ensures e.id == id && e.content == r.content && e.version == 1
  {
    Entry(id, if Trim(r.name) == "" then id else r.name, r.content,
          if Trim(r.kind) == "" then "html" else r.kind, now, now, 1)
  }

  /** `Push`; `savedAt` is the clock reading inside `saveVersionLocked`. */
  function Push(s: State, max: nat, r: Request, generated: Option<string>, now: int, savedAt: int, saving: Saving)
    : (State, Result<Entry, Error>)
  {
    match PushId(r, generated)
    case Err(e) => (s, Err(e))
    case Ok(id) =>
      if !ValidId(id) then (s, Err(InvalidId))
      else if id in s.mem.entries then
        match saving
        case Saved =>
          var t := Archived(s, max, id, r.content, now, savedAt, r.agent, saving);
          (t, Ok(t.mem.entries[id]))
        case EntryFails =>
          (Archived(s, max, id, r.content, now, savedAt, r.agent, saving), Err(CannotWriteEntry))
        case MkdirFails => (ArchiveFails(s, s.mem.entries[id].id, saving), Err(CannotCreateDir))
        case WriteFails => (ArchiveFails(s, s.mem.entries[id].id, saving), Err(CannotWriteVersion))
      else
        var e := NewEntry(r, id, now);
        (Store(s, id, e, saving), if saving.EntryFails? then Err(CannotWriteEntry) else Ok(e))
  }

  /** `Reset`. */
  function Reset(s: State, max: nat, id: string, now: int, savedAt: int, saving: Saving): (State, Option<Error>) {
    if !ValidId(id) then (s, Some(InvalidId))
    else if id !in s.mem.entries then (s, Some(NotFound))
    else
      match saving
      case Saved => (Archived(s, max, id, "", now, savedAt, "system", saving), None)
      case EntryFails => (Archived(s, max, id, "", now, savedAt, "system", saving), Some(CannotWriteEntry))
      case MkdirFails => (ArchiveFails(s, s.mem.entries[id].id, saving), Some(CannotCreateDir))
      case WriteFails => (ArchiveFails(s, s.mem.entries[id].id, saving), Some(CannotWriteVersion))
  }

  /** `Delete`: an unknown id is no error. */
  function Delete(s: State, id: string): (State, Option<Error>) {
    if !ValidId(id) then (s, Some(InvalidId)) else
      (State(Memory(s.mem.entries - {id}, s.mem.versions - {id}),
             Disk(s.disk.entryFiles - {id}, s.disk.versionDirs - {id})), None)
  }

  // ---------------------------------------------------------------- loading

  predicate Ascending(vs: seq<Version>) {
    forall i, j :: 0 <= i < j < |vs| ==> vs[i].number <= vs[j].number
  }

  function Insert(vs: seq<Version>, v: Version): (r: seq<Version>)
    requires Ascending(vs)
    ensures Ascending(r) && |r| > 0
    ensures r[|r| - 1].number == if vs != [] && vs[|vs| - 1].number > v.number then vs[|vs| - 1].number else v.number
    decreases |vs|
  {
    if vs == [] || vs[|vs| - 1].number <= v.number then vs + [v] else
      Insert(vs[..|vs| - 1], v) + [vs[|vs| - 1]]
  }

  lemma {:induction false} InsertPermutes(vs: seq<Version>, v: Version)
    requires Ascending(vs)
    ensures multiset(Insert(vs, v)) == multiset(vs) + multiset{v}
    decreases |vs|
  {
    if vs != [] && vs[|vs| - 1].number > v.number {
      InsertPermutes(vs[..|vs| - 1], v);
      assert vs == vs[..|vs| - 1] + [vs[|vs| - 1]];
    }
  }

  /** `sort.Slice` by version number. */
  function SortByNumber(vs: seq<Version>): (r: seq<Version>)
    ensures Ascending(r) && multiset(r) == multiset(vs)
  {
    if vs == [] then [] else
      assert vs == vs[..|vs| - 1] + [vs[|vs| - 1]];
      InsertPermutes(SortByNumber(vs[..|vs| - 1]), vs[|vs| - 1]);
      Insert(SortByNumber(vs[..|vs| - 1]), vs[|vs| - 1])
  }

  /** An order in which a directory can list its files. */
  ghost predicate Listing<K(!new)>(order: seq<K>, files: set<K>) {
    (forall k :: k in order <==> k in files) && (forall i, j :: 0 <= i < j < |order| ==> order[i] != order[j])
  }

  function ReadAll(dir: map<nat, Version>, order: seq<nat>): (vs: seq<Version>)
    requires forall n :: n in order ==> n in dir
    ensures |vs| == |order| && forall i :: 0 <= i < |vs| ==> vs[i] == dir[order[i]]
  {
    seq(|order|, i requires 0 <= i < |order| => dir[order[i]])
  }

  /** The order in which every directory lists its files. */
  datatype Orders = Orders(entries: seq<string>, versions: map<string, seq<nat>>)

  ghost predicate OrdersOf(d: Disk, o: Orders) {
    && Listing(o.entries, d.entryFiles.Keys)
    && forall id :: id in d.versionDirs ==> id in o.versions && Listing(o.versions[id], d.versionDirs[id].Keys)
  }

  /** `load` and `loadVersions` after the first `n` entry files. */
  function Load(d: Disk, o: Orders, n: nat): Memory
    requires n <= |o.entries|
    requires forall f :: f in o.entries ==> f in d.entryFiles
    requires forall id :: id in d.versionDirs ==> id in o.versions && forall k :: k in o.versions[id] ==> k in d.versionDirs[id]
  {
    if n == 0 then Memory(map[], map[]) else
      var m := Load(d, o, n - 1);
      var e := d.entryFiles[o.entries[n - 1]];
      if !ValidId(e.id) then m
      else Memory(m.entries[e.id := e],
                  if e.id !in d.versionDirs then m.versions
                  else m.versions[e.id := SortByNumber(ReadAll(d.versionDirs[e.id], o.versions[e.id]))])
  }

  // ---------------------------------------------------------------- the store that never forgets

  /** When and by whom a content was replaced, and what the clock showed for the next one. */
  datatype Retired = Retired(timestamp: int, agent: string, next: int)

  /** What a canvas is created with and keeps. */
  datatype Made = Made(name: string, kind: string, at: int)

  /** A blank name is replaced by the id, a blank type by "html". */
  function MadeBy(r: Request, id: string, now: int): Made {
    Made(if Blank(r.name) then id else r.name, if Blank(r.kind) then "html" else r.kind, now)
  }

  /** What a canvas was created with, and every content it ever had, oldest first; all but the last have been
      replaced, and of those the last `shown` are still to be seen. */
  datatype History = History(made: Made, contents: seq<string>, retired: seq<Retired>, shown: nat)
  {
    /** When the last content came. */
    function UpdatedAt(): int {
      if retired == [] then made.at else retired[|retired| - 1].next
    }
  }

  type Histories = map<string, History>

  /** One content more, while at most `max` replaced ones are kept. */
  function Extend(h: History, content: string, stamp: Retired, max: nat): History {
    History(h.made, h.contents + [content], h.retired + [stamp], if h.shown < max then h.shown + 1 else max)
  }

  datatype Op =
    | DoPush(r: Request, generated: Option<string>, now: int, savedAt: int, saving: Saving)
    | DoReset(id: string, now: int, savedAt: int, saving: Saving)
    | DoDelete(id: string)
    | Restart(limit: int, orders: Orders)

  /** `NewStore`: a limit that is not positive becomes 20. */
  function LimitOf(limit: int): (max: nat)
    ensures max > 0
  {
    if limit <= 0 then 20 else limit
  }

  /** The limit in force after an operation: a restart may bring another one. */
  function LimitAfter(max: nat, op: Op): nat {
    if op.Restart? then LimitOf(op.limit) else max
  }

  /** What an operation does to the full histories, under the limit `max`. */
  function Remember(hs: Histories, max: nat, op: Op): Histories {
    match op
    case DoPush(r, generated, now, savedAt, saving) =>
      (match PushId(r, generated)
       case Err(_) => hs
       case Ok(id) =>
         if !ValidId(id) then hs
         else if id !in hs then hs[id := History(MadeBy(r, id, now), [r.content], [], 0)]
         else if Archives(saving) then hs[id := Extend(hs[id], r.content, Retired(savedAt, r.agent, now), max)]
         else hs)
    case DoReset(id, now, savedAt, saving) =>
      if ValidId(id) && id in hs && Archives(saving) then
        hs[id := Extend(hs[id], "", Retired(savedAt, "system", now), max)]
      else hs
    case DoDelete(id) => if ValidId(id) then hs - {id} else hs
    case Restart(_, _) => hs
  }

  /** What an operation does to the store; a restart needs listings of the files there are. */
  ghost function Apply(s: State, max: nat, op: Op): Option<State> {
    match op
    case DoPush(r, generated, now, savedAt, saving) => Some(Push(s, max, r, generated, now, savedAt, saving).0)
    case DoReset(id, now, savedAt, saving) => Some(Reset(s, max, id, now, savedAt, saving).0)
    case DoDelete(id) => Some(Delete(s, id).0)
    case Restart(_, o) => if OrdersOf(s.disk, o) then Some(State(Load(s.disk, o, |o.entries|), s.disk)) else None
  }

  ghost function Run(s: State, max: nat, ops: seq<Op>): Option<State>
    decreases ops
  {
    if ops == [] then Some(s) else
      match Apply(s, max, ops[0])
      case None => None
      case Some(t) => Run(t, LimitAfter(max, ops[0]), ops[1..])
  }

  function RememberAll(hs: Histories, max: nat, ops: seq<Op>): Histories
    decreases ops
  {
    if ops == [] then hs else RememberAll(Remember(hs, max, ops[0]), LimitAfter(max, ops[0]), ops[1..])
  }

  // ---------------------------------------------------------------- the refinement

  predicate WellFormed(h: History) {
    |h.contents| == |h.retired| + 1 && h.shown <= |h.retired|
  }

  /** The versions a history shows: the last replaced contents, each under its own number, with the time
      and the agent of its replacement. */
  function Window(h: History): (vs: seq<Version>)
    requires WellFormed(h)
    ensures |vs| == h.shown
    ensures forall j :: 0 <= j < |vs| ==> vs[j] == VersionAt(h, |h.contents| - |vs| + j)
  {
    seq(h.shown, j requires 0 <= j < h.shown => VersionAt(h, |h.contents| - h.shown + j))
  }

  /** Version `number` of a history: its content number `number`, counted from one. */
  function VersionAt(h: History, number: nat): Version
    requires WellFormed(h) && 0 < number <= |h.retired|
  {
    Version(number, h.contents[number - 1], h.retired[number - 1].timestamp, h.retired[number - 1].agent)
  }

  /** The version files of the versions a history shows. */
  function WindowDir(h: History): (dir: map<nat, Version>)
    requires WellFormed(h)
    ensures forall n :: n in dir <==> 0 < n <= |h.retired| && |h.retired| < n + h.shown
    ensures forall n :: n in dir ==> dir[n] == VersionAt(h, n)
  {
    map n: nat | n <= |h.retired| && 0 < n && |h.retired| < n + h.shown :: VersionAt(h, n)
  }

  /** What an entry file holds: the entry, or an earlier one of the same canvas. */
  predicate NotNewer(f: Entry, e: Entry) {
    f == e || (f.id == e.id && f.version < e.version)
  }

  ghost predicate CanvasRefines(s: State, id: string, h: History) {
    id in s.mem.entries && WellFormed(h) &&
    var e := s.mem.entries[id];
    && ValidId(id) && e.id == id
    && e.version == |h.contents| && e.content == h.contents[|h.contents| - 1]
    && Made(e.name, e.kind, e.createdAt) == h.made && e.updatedAt == h.UpdatedAt()
    && VersionsOf(s.mem, id) == Window(h)
    && (id in s.disk.entryFiles ==> NotNewer(s.disk.entryFiles[id], e))
    && DirOf(s.disk, id) == WindowDir(h)
  }

  /** The store shows the full histories through its window, in memory and in the version files; no entry
      file is newer than its entry. */
  ghost predicate Refines(s: State, hs: Histories) {
    && s.disk.entryFiles.Keys <= s.mem.entries.Keys == hs.Keys
    && s.mem.versions.Keys <= hs.Keys && s.disk.versionDirs.Keys <= hs.Keys
    && forall id :: id in hs ==> CanvasRefines(s, id, hs[id])
  }

  lemma VersionStays(h: History, max: nat, content: string, stamp: Retired, n: nat)
    requires WellFormed(h) && 0 < n <= |h.retired|
    ensures VersionAt(Extend(h, content, stamp, max), n) == VersionAt(h, n)
  {
  }

  lemma NewVersion(h: History, max: nat, content: string, stamp: Retired)
    requires WellFormed(h)
    ensures VersionAt(Extend(h, content, stamp, max), |h.contents|)
            == Version(|h.contents|, h.contents[|h.contents| - 1], stamp.timestamp, stamp.agent)
  {
  }

  /** Archiving a version moves the window on by one. */
  lemma WindowMoves(h: History, max: nat, content: string, stamp: Retired)
    requires WellFormed(h) && max > 0
    ensures var h' := Extend(h, content, stamp, max);
            Window(h') == Last(Window(h) + [VersionAt(h', |h.contents|)], max)
  {
    var h' := Extend(h, content, stamp, max);
    hide VersionAt, Window;
    var all := Window(h) + [VersionAt(h', |h.contents|)];
    var kept := Last(all, max);
    assert |kept| == |Window(h')|;
    forall j | 0 <= j < |kept|
      ensures kept[j] == Window(h')[j]
    {
      var n := |h'.contents| - |kept| + j;
      if n <= |h.retired| {
        VersionStays(h, max, content, stamp, n);
      }
    }
  }

  /** The numbers that fall out of the window when a version is added: none while there is room, usually the
      oldest one, and more after the limit has been lowered. */
  function Outgoing(h: History, max: nat): set<nat> {
    set n: nat | n <= |h.contents| && FallsOut(h, max, n)
  }

  predicate FallsOut(h: History, max: nat, n: nat) {
    |h.contents| - h.shown <= n && n + max <= |h.contents|
  }

  lemma DroppedNumbers(h: History, max: nat, v: Version)
    requires WellFormed(h) && max > 0 && v.number == |h.contents|
    ensures var all := Window(h) + [v];
            Numbers(all[..|all| - |Last(all, max)|]) == Outgoing(h, max)
  {
    var all := Window(h) + [v];
    var dropped := all[..|all| - |Last(all, max)|];
    hide Window;
    assert forall j :: 0 <= j < |dropped| ==> dropped[j] == all[j] && all[j].number == |h.contents| - h.shown + j;
    forall n | n in Outgoing(h, max)
      ensures n in Numbers(dropped)
    {
      assert dropped[n - (|h.contents| - h.shown)].number == n;
    }
  }

  lemma DirGrows(h: History, max: nat, content: string, stamp: Retired)
    requires WellFormed(h) && max > 0
    ensures var h' := Extend(h, content, stamp, max);
            var n := |h.contents|;
            WindowDir(h') == WindowDir(h)[n := VersionAt(h', n)] - Outgoing(h, max)
  {
    var h' := Extend(h, content, stamp, max);
    hide WindowDir, VersionAt;
    forall n | n in WindowDir(h)
      ensures VersionAt(h', n) == VersionAt(h, n)
    {
      VersionStays(h, max, content, stamp, n);
    }
  }

  /** Writing the new version's file and removing those of the dropped ones moves the directory along. */
  lemma DirMoves(h: History, max: nat, content: string, stamp: Retired, v: Version, all: seq<Version>)
    requires WellFormed(h) && max > 0
    requires v == VersionAt(Extend(h, content, stamp, max), |h.contents|) && all == Window(h) + [v]
    ensures WindowDir(Extend(h, content, stamp, max))
            == WindowDir(h)[v.number := v] - Numbers(all[..|all| - |Last(all, max)|])
  {
    NewVersion(h, max, content, stamp);
    DroppedNumbers(h, max, v);
    DirGrows(h, max, content, stamp);
  }

  predicate SameFile(s: State, t: State, id: string) {
    && (id in s.disk.entryFiles <==> id in t.disk.entryFiles)
    && (id in t.disk.entryFiles ==> t.disk.entryFiles[id] == s.disk.entryFiles[id])
  }

  /** Archiving touches one canvas. */
  lemma ArchivedElsewhere(s: State, max: nat, id: string, content: string, now: int, savedAt: int, agent: string,
                          saving: Saving, other: string)
    requires id in s.mem.entries && s.mem.entries[id].id == id && other != id
    ensures var t := Archived(s, max, id, content, now, savedAt, agent, saving);
            && (other in s.mem.entries ==> other in t.mem.entries && t.mem.entries[other] == s.mem.entries[other])
            && VersionsOf(t.mem, other) == VersionsOf(s.mem, other)
            && DirOf(t.disk, other) == DirOf(s.disk, other)
            && SameFile(s, t, other)
  {
    hide Last, Numbers;
  }

  lemma ArchivedShape(s: State, max: nat, id: string, content: string, now: int, savedAt: int, agent: string,
                      saving: Saving, v: Version, all: seq<Version>)
    requires id in s.mem.entries && s.mem.entries[id].id == id
    requires v == Version(s.mem.entries[id].version, s.mem.entries[id].content, savedAt, agent)
    requires all == VersionsOf(s.mem, id) + [v]
    requires id in s.disk.entryFiles ==> NotNewer(s.disk.entryFiles[id], s.mem.entries[id])
    ensures var t := Archived(s, max, id, content, now, savedAt, agent, saving);
            && VersionsOf(t.mem, id) == Last(all, max)
            && DirOf(t.disk, id) == DirOf(s.disk, id)[v.number := v] - Numbers(all[..|all| - |Last(all, max)|])
            && id in t.mem.entries && (id in t.disk.entryFiles ==> NotNewer(t.disk.entryFiles[id], t.mem.entries[id]))
            && t.mem.entries[id].id == id && t.mem.entries[id].version == v.number + 1
            && t.mem.entries[id] == s.mem.entries[id].(content := content, updatedAt := now, version := v.number + 1)
  {
    hide Last, Numbers, Archived, VersionsOf, DirOf, NotNewer;
    ArchivedVersions(s, max, id, content, now, savedAt, agent, saving, v, all);
    ArchivedEntry(s, max, id, content, now, savedAt, agent, saving);
    ArchivedFile(s, max, id, content, now, savedAt, agent, saving);
  }

  lemma ArchivedVersions(s: State, max: nat, id: string, content: string, now: int, savedAt: int, agent: string,
                         saving: Saving, v: Version, all: seq<Version>)
    requires id in s.mem.entries && s.mem.entries[id].id == id
    requires v == Version(s.mem.entries[id].version, s.mem.entries[id].content, savedAt, agent)
    requires all == VersionsOf(s.mem, id) + [v]
    ensures var t := Archived(s, max, id, content, now, savedAt, agent, saving);
            && VersionsOf(t.mem, id) == Last(all, max)
            && DirOf(t.disk, id) == DirOf(s.disk, id)[v.number := v] - Numbers(all[..|all| - |Last(all, max)|])
  {
    hide Last, Numbers;
  }

  lemma ArchivedFile(s: State, max: nat, id: string, content: string, now: int, savedAt: int, agent: string,
                     saving: Saving)
    requires id in s.mem.entries && s.mem.entries[id].id == id
    requires id in s.disk.entryFiles ==> NotNewer(s.disk.entryFiles[id], s.mem.entries[id])
    ensures var t := Archived(s, max, id, content, now, savedAt, agent, saving);
            id in t.mem.entries && (id in t.disk.entryFiles ==> NotNewer(t.disk.entryFiles[id], t.mem.entries[id]))
  {
    hide Last, Numbers, Archive;
    ArchivesNoFile(s, max, s.mem.entries[id], savedAt, agent);
  }

  lemma ArchivesNoFile(s: State, max: nat, e: Entry, now: int, agent: string)
    ensures Archive(s, max, e, now, agent).disk.entryFiles == s.disk.entryFiles
  {
    hide Last, Numbers;
  }

  lemma ArchivedCanvas(s: State, max: nat, id: string, h: History, content: string, now: int, savedAt: int,
                       agent: string, saving: Saving)
    requires max > 0 && CanvasRefines(s, id, h)
    ensures CanvasRefines(Archived(s, max, id, content, now, savedAt, agent, saving), id,
                          Extend(h, content, Retired(savedAt, agent, now), max))
  {
    hide Window, WindowDir, Last, Numbers, VersionAt, Archived, VersionsOf, DirOf, ValidId, NotNewer;
    var stamp := Retired(savedAt, agent, now);
    NewVersion(h, max, content, stamp);
    var v := VersionAt(Extend(h, content, stamp, max), |h.contents|);
    var all := Window(h) + [v];
    ArchivedShape(s, max, id, content, now, savedAt, agent, saving, v, all);
    WindowMoves(h, max, content, stamp);
    DirMoves(h, max, content, stamp, v, all);
  }

  /** Archiving the current content and then storing a new one extends the history by that content. */
  lemma ArchiveRefines(s: State, max: nat, hs: Histories, id: string, content: string, now: int, savedAt: int,
                       agent: string, saving: Saving)
    requires max > 0 && Refines(s, hs) && id in hs
    ensures Refines(Archived(s, max, id, content, now, savedAt, agent, saving),
                    hs[id := Extend(hs[id], content, Retired(savedAt, agent, now), max)])
  {
    hide ValidId, Window, WindowDir, Last, Numbers, Extend;
    assert s.mem.entries[id].id == id by {
      assert CanvasRefines(s, id, hs[id]);
    }
    hide CanvasRefines, Archived;
    ArchivedCanvas(s, max, id, hs[id], content, now, savedAt, agent, saving);
    ArchivedKeys(s, max, id, content, now, savedAt, agent, saving);
    var t := Archived(s, max, id, content, now, savedAt, agent, saving);
    var hs' := hs[id := Extend(hs[id], content, Retired(savedAt, agent, now), max)];
    forall other | other in hs'
      ensures CanvasRefines(t, other, hs'[other])
    {
      if other != id {
        ArchivedElsewhere(s, max, id, content, now, savedAt, agent, saving, other);
        SameCanvas(s, t, other, hs[other]);
      }
    }
  }

  lemma ArchivedKeys(s: State, max: nat, id: string, content: string, now: int, savedAt: int, agent: string,
                     saving: Saving)
    requires id in s.mem.entries && s.mem.entries[id].id == id
    ensures var t := Archived(s, max, id, content, now, savedAt, agent, saving);
            && t.mem.entries.Keys == s.mem.entries.Keys && t.disk.entryFiles.Keys <= s.disk.entryFiles.Keys + {id}
            && t.mem.versions.Keys == s.mem.versions.Keys + {id} && t.disk.versionDirs.Keys == s.disk.versionDirs.Keys + {id}
  {
    hide Last, Numbers;
  }

  /** A canvas whose entry, versions and files are untouched still refines its history. */
  lemma SameCanvas(s: State, t: State, id: string, h: History)
    requires CanvasRefines(s, id, h)
    requires id in t.mem.entries && t.mem.entries[id] == s.mem.entries[id]
    requires VersionsOf(t.mem, id) == VersionsOf(s.mem, id) && DirOf(t.disk, id) == DirOf(s.disk, id)
    requires SameFile(s, t, id)
    ensures CanvasRefines(t, id, h)
  {
    hide ValidId, Window, WindowDir;
  }

  function FirstOf(e: Entry): History {
    History(Made(e.name, e.kind, e.createdAt), [e.content], [], 0)
  }

  lemma CreatedCanvas(s: State, e: Entry, saving: Saving)
    requires ValidId(e.id) && e.version == 1 && e.updatedAt == e.createdAt
    requires VersionsOf(s.mem, e.id) == [] && DirOf(s.disk, e.id) == map[] && e.id !in s.disk.entryFiles
    ensures CanvasRefines(Store(s, e.id, e, saving), e.id, FirstOf(e))
  {
    hide ValidId, VersionAt;
    assert Window(FirstOf(e)) == [];
    assert WindowDir(FirstOf(e)) == map[];
  }

  lemma CreateRefines(s: State, hs: Histories, e: Entry, saving: Saving)
    requires Refines(s, hs) && e.id !in hs && ValidId(e.id) && e.version == 1 && e.updatedAt == e.createdAt
    ensures Refines(Store(s, e.id, e, saving), hs[e.id := FirstOf(e)])
  {
    hide ValidId, CanvasRefines;
    var t := Store(s, e.id, e, saving);
    var hs' := hs[e.id := FirstOf(e)];
    CreatedCanvas(s, e, saving);
    forall other | other in hs'
      ensures CanvasRefines(t, other, hs'[other])
    {
      if other != e.id {
        SameCanvas(s, t, other, hs[other]);
      }
    }
  }

  lemma EntryKnowsItsId(s: State, id: string, h: History)
    requires CanvasRefines(s, id, h)
    ensures id in s.mem.entries && s.mem.entries[id].id == id
  {
    hide ValidId, Window, WindowDir;
  }

  lemma ArchiveFailsRefines(s: State, hs: Histories, id: string, saving: Saving)
    requires Refines(s, hs) && id in hs
    ensures Refines(ArchiveFails(s, id, saving), hs)
  {
    hide CanvasRefines, ValidId;
    var t := ArchiveFails(s, id, saving);
    forall other | other in hs
      ensures CanvasRefines(t, other, hs[other])
    {
      SameCanvas(s, t, other, hs[other]);
    }
  }

  lemma DeleteRefines(s: State, hs: Histories, id: string)
    requires Refines(s, hs) && ValidId(id)
    ensures Refines(Delete(s, id).0, hs - {id})
  {
    var t := Delete(s, id).0;
    hide CanvasRefines, ValidId;
    forall other | other in hs - {id}
      ensures CanvasRefines(t, other, hs[other])
    {
      SameCanvas(s, t, other, hs[other]);
    }
  }

  // ---------------------------------------------------------------- restarting

  predicate NoDuplicates<T(==)>(xs: seq<T>) {
    forall i, j :: 0 <= i < j < |xs| ==> xs[i] != xs[j]
  }

  lemma {:induction false} NoDuplicatesOnce<T>(xs: seq<T>, x: T)
    requires NoDuplicates(xs)
    ensures multiset(xs)[x] == if x in xs then 1 else 0
  {
    if xs != [] {
      var n := |xs| - 1;
      NoDuplicatesOnce(xs[..n], x);
      assert xs == xs[..n] + [xs[n]];
    }
  }

  lemma SameElements<T(!new)>(xs: seq<T>, ys: seq<T>)
    requires NoDuplicates(xs) && NoDuplicates(ys) && forall x :: x in xs <==> x in ys
    ensures multiset(xs) == multiset(ys)
  {
    forall x ensures multiset(xs)[x] == multiset(ys)[x] {
      NoDuplicatesOnce(xs, x);
      NoDuplicatesOnce(ys, x);
    }
  }

  predicate StrictlyAscending(vs: seq<Version>) {
    forall i, j :: 0 <= i < j < |vs| ==> vs[i].number < vs[j].number
  }

  lemma SameLast(a: seq<Version>, b: seq<Version>)
    requires |a| == |b| > 0 && Ascending(a) && StrictlyAscending(b) && multiset(a) == multiset(b)
    ensures a[|a| - 1] == b[|b| - 1]
  {
    var n := |b| - 1;
    assert b[n] in multiset(a) && a[n] in multiset(b);
    var i :| 0 <= i < |b| && b[i] == a[n];
    var j :| 0 <= j < |a| && a[j] == b[n];
    assert a[j].number <= a[n].number;
  }

  lemma FrontsAscend(a: seq<Version>, b: seq<Version>)
    requires |a| == |b| > 0 && Ascending(a) && StrictlyAscending(b)
    ensures Ascending(a[..|a| - 1]) && StrictlyAscending(b[..|b| - 1])
  {
  }

  /** There is one way to sort versions with distinct numbers. */
  lemma {:induction false} SortedOnce(a: seq<Version>, b: seq<Version>)
    requires Ascending(a) && StrictlyAscending(b) && multiset(a) == multiset(b)
    ensures a == b
    decreases |b|
  {
    hide Ascending, StrictlyAscending;
    assert |a| == |multiset(a)| == |multiset(b)| == |b|;
    if b != [] {
      SameLast(a, b);
      SameFront(a, b);
      FrontsAscend(a, b);
      SortedOnce(a[..|a| - 1], b[..|b| - 1]);
      assert a == a[..|a| - 1] + [a[|a| - 1]] && b == b[..|b| - 1] + [b[|b| - 1]];
    }
  }

  lemma SameFront(a: seq<Version>, b: seq<Version>)
    requires |a| == |b| > 0 && multiset(a) == multiset(b) && a[|a| - 1] == b[|b| - 1]
    ensures multiset(a[..|a| - 1]) == multiset(b[..|b| - 1])
  {
    FrontOf(a);
    FrontOf(b);
  }

  lemma FrontOf(a: seq<Version>)
    requires a != []
    ensures multiset(a[..|a| - 1]) == multiset(a) - multiset{a[|a| - 1]}
  {
    assert a == a[..|a| - 1] + [a[|a| - 1]];
  }

  lemma WindowIsRead(h: History, order: seq<nat>, v: Version)
    requires WellFormed(h) && Listing(order, WindowDir(h).Keys) && v in Window(h)
    ensures v in ReadAll(WindowDir(h), order)
  {
    hide WindowDir, Window, ReadAll;
    var w := Window(h);
    var j :| 0 <= j < |w| && w[j] == v;
    assert v.number in order;
    var k :| 0 <= k < |order| && order[k] == v.number;
    assert ReadAll(WindowDir(h), order)[k] == v;
  }

  /** The files read in any order are the versions of the window. */
  lemma ReadIsWindow(h: History, order: seq<nat>, v: Version)
    requires WellFormed(h) && Listing(order, WindowDir(h).Keys)
    ensures v in ReadAll(WindowDir(h), order) <==> v in Window(h)
  {
    var dir, w := WindowDir(h), Window(h);
    var read := ReadAll(dir, order);
    hide WindowDir, Window, ReadAll;
    if v in w {
      WindowIsRead(h, order, v);
    }
    if v in read {
      var k :| 0 <= k < |order| && read[k] == v;
      assert order[k] in order;
      assert v == w[order[k] + |w| - |h.contents|];
    }
  }

  lemma ReadIsDistinct(h: History, order: seq<nat>)
    requires WellFormed(h) && Listing(order, WindowDir(h).Keys)
    ensures NoDuplicates(ReadAll(WindowDir(h), order)) && NoDuplicates(Window(h))
  {
    hide WindowDir, Window, ReadAll;
    assert forall i :: 0 <= i < |order| ==> order[i] in order;
  }

  /** Reading a version directory in any order gives back the window, in order. */
  lemma DirectoryRebuilds(h: History, order: seq<nat>)
    requires WellFormed(h) && Listing(order, WindowDir(h).Keys)
    ensures SortByNumber(ReadAll(WindowDir(h), order)) == Window(h)
  {
    var read, w := ReadAll(WindowDir(h), order), Window(h);
    ReadIsDistinct(h, order);
    forall v ensures v in read <==> v in w {
      ReadIsWindow(h, order, v);
    }
    hide WindowDir, ReadAll, Listing, NoDuplicates, SortByNumber;
    SameElements(read, w);
    SortedOnce(SortByNumber(read), w);
  }

  /** A window is empty exactly when the newest replaced content has no file. */
  lemma WindowEmpty(h: History)
    requires WellFormed(h)
    ensures Window(h) == [] <==> |h.retired| !in WindowDir(h)
  {
    hide VersionAt;
  }

  /** What `load` has built for one id after `n` entry files whose names match their ids. */
  lemma {:induction false} LoadBuilds(d: Disk, o: Orders, n: nat, id: string)
    requires OrdersOf(d, o) && n <= |o.entries|
    requires forall f :: f in d.entryFiles ==> d.entryFiles[f].id == f && ValidId(f)
    ensures Load(d, o, n).entries.Keys <= d.entryFiles.Keys
    ensures id in Load(d, o, n).entries <==> id in o.entries[..n]
    ensures id in Load(d, o, n).entries ==> id in d.entryFiles && Load(d, o, n).entries[id] == d.entryFiles[id]
    ensures id in Load(d, o, n).versions <==> id in o.entries[..n] && id in d.versionDirs
    ensures id in Load(d, o, n).versions ==>
              id in d.versionDirs && Load(d, o, n).versions[id] == SortByNumber(ReadAll(d.versionDirs[id], o.versions[id]))
  {
    hide ValidId, SortByNumber;
    if n > 0 {
      LoadBuilds(d, o, n - 1, id);
      var f := o.entries[n - 1];
      assert f in o.entries;
      assert o.entries[..n] == o.entries[..n - 1] + [f];
      assert id in o.entries[..n] <==> id in o.entries[..n - 1] || id == f;
    }
  }

  /** A restart reads back what the entry files hold and, canvas by canvas, the same versions in the same
      order, whatever order the directories list their files in. */
  lemma LoadIsMemory(s: State, hs: Histories, o: Orders, id: string)
    requires Refines(s, hs) && OrdersOf(s.disk, o)
    ensures var m := Load(s.disk, o, |o.entries|);
            && (id in m.entries <==> id in s.disk.entryFiles)
            && (id in m.entries ==> m.entries[id] == s.disk.entryFiles[id] && VersionsOf(m, id) == VersionsOf(s.mem, id))
            && (id in m.versions ==> id in hs)
  {
    hide ValidId, SortByNumber, Window, WindowDir;
    forall f | f in s.disk.entryFiles
      ensures s.disk.entryFiles[f].id == f && ValidId(f)
    {
      assert CanvasRefines(s, f, hs[f]);
    }
    LoadBuilds(s.disk, o, |o.entries|, id);
    assert o.entries[..|o.entries|] == o.entries;
    if id in hs {
      assert CanvasRefines(s, id, hs[id]);
      WindowEmpty(hs[id]);
      if id in s.disk.versionDirs {
        DirectoryRebuilds(hs[id], o.versions[id]);
      }
    }
  }

  /** The canvases whose entry file is not there or holds an earlier entry. */
  function Behind(s: State): set<string> {
    set id | id in s.mem.entries && !(id in s.disk.entryFiles && s.disk.entryFiles[id] == s.mem.entries[id])
  }

  lemma RestartRefinesIf(s: State, hs: Histories, o: Orders)
    requires Refines(s, hs) && OrdersOf(s.disk, o) && Behind(s) == {}
    ensures Refines(State(Load(s.disk, o, |o.entries|), s.disk), hs)
    ensures Behind(State(Load(s.disk, o, |o.entries|), s.disk)) == {}
  {
    hide ValidId, CanvasRefines, Load;
    var t := State(Load(s.disk, o, |o.entries|), s.disk);
    forall id: string
      ensures id in t.mem.entries <==> id in hs
      ensures id in t.mem.versions ==> id in hs
      ensures id in hs ==> CanvasRefines(t, id, hs[id]) && id !in Behind(t)
    {
      LoadIsMemory(s, hs, o, id);
      if id in hs {
        assert id !in Behind(s);
        SameCanvas(s, t, id, hs[id]);
      }
    }
  }

  /** What was only in memory is lost: the canvas comes back with an earlier version, or not at all. */
  lemma RestartLoses(s: State, hs: Histories, o: Orders, id: string)
    requires Refines(s, hs) && OrdersOf(s.disk, o) && id in Behind(s)
    ensures var m := Load(s.disk, o, |o.entries|);
            id !in m.entries || m.entries[id].version < |hs[id].contents|
    ensures !Refines(State(Load(s.disk, o, |o.entries|), s.disk), hs)
  {
    hide ValidId, Load, Window, WindowDir;
    LoadIsMemory(s, hs, o, id);
    assert CanvasRefines(s, id, hs[id]);
    var t := State(Load(s.disk, o, |o.entries|), s.disk);
    assert !CanvasRefines(t, id, hs[id]);
  }

  /** A restart gives the full histories again if and only if every entry file is up to date. */
  lemma RestartRefines(s: State, hs: Histories, o: Orders)
    requires Refines(s, hs) && OrdersOf(s.disk, o)
    ensures Refines(State(Load(s.disk, o, |o.entries|), s.disk), hs) <==> Behind(s) == {}
  {
    hide Refines, Load, Behind;
    if Behind(s) == {} {
      RestartRefinesIf(s, hs, o);
    } else {
      var id :| id in Behind(s);
      RestartLoses(s, hs, o, id);
    }
  }

  // ---------------------------------------------------------------- every run

  lemma NewEntryIs(r: Request, id: string, now: int)
    ensures var e := NewEntry(r, id, now);
            FirstOf(e) == History(MadeBy(r, id, now), [r.content], [], 0) && e.updatedAt == e.createdAt
  {
    BlankIsEmpty(r.name);
    BlankIsEmpty(r.kind);
    hide Trim, Blank;
  }

  lemma PushRefines(s: State, max: nat, hs: Histories, op: Op, t: State)
    requires max > 0 && Refines(s, hs) && op.DoPush? && Apply(s, max, op) == Some(t)
    ensures Refines(t, Remember(hs, max, op))
  {
    hide ValidId, PushId, CanvasRefines, NewEntry, Archive;
    var r := op.r;
    match PushId(r, op.generated)
    case Err(_) =>
    case Ok(id) =>
      if ValidId(id) {
        if id in s.mem.entries {
          if Archives(op.saving) {
            ArchiveRefines(s, max, hs, id, r.content, op.now, op.savedAt, r.agent, op.saving);
          } else {
            assert CanvasRefines(s, id, hs[id]);
            EntryKnowsItsId(s, id, hs[id]);
            ArchiveFailsRefines(s, hs, id, op.saving);
          }
        } else {
          NewEntryIs(r, id, op.now);
          CreateRefines(s, hs, NewEntry(r, id, op.now), op.saving);
        }
      }
  }

  lemma ResetRefines(s: State, max: nat, hs: Histories, op: Op, t: State)
    requires max > 0 && Refines(s, hs) && op.DoReset? && Apply(s, max, op) == Some(t)
    ensures Refines(t, Remember(hs, max, op))
  {
    hide ValidId, CanvasRefines, Archive;
    var id := op.id;
    if ValidId(id) && id in hs {
      if Archives(op.saving) {
        ArchiveRefines(s, max, hs, id, "", op.now, op.savedAt, "system", op.saving);
      } else {
        assert CanvasRefines(s, id, hs[id]);
        EntryKnowsItsId(s, id, hs[id]);
        ArchiveFailsRefines(s, hs, id, op.saving);
      }
    }
  }

  /** Every operation keeps the refinement, a restart if and only if no entry file is behind. */
  lemma ApplyRefines(s: State, max: nat, hs: Histories, op: Op, t: State)
    requires max > 0 && Refines(s, hs) && Apply(s, max, op) == Some(t)
    ensures Refines(t, Remember(hs, max, op)) <==> (op.Restart? ==> Behind(s) == {})
  {
    match op
    case DoPush(_, _, _, _, _) => PushRefines(s, max, hs, op, t);
    case DoReset(_, _, _, _) => ResetRefines(s, max, hs, op, t);
    case DoDelete(id) =>
      hide ValidId, CanvasRefines;
      if ValidId(id) {
        DeleteRefines(s, hs, id);
      }
    case Restart(_, o) =>
      hide Refines, Load, Behind;
      RestartRefines(s, hs, o);
  }

  /** A failed write of the entry leaves the canvas behind, a successful one brings it up to date; if the
      version cannot be written there is neither. */
  function Settle(behind: set<string>, id: string, known: bool, saving: Saving): set<string> {
    if saving.EntryFails? then behind + {id}
    else if known && !saving.Saved? then behind
    else behind - {id}
  }

  /** Which canvases an operation leaves with an entry file that is behind, told from how its writes end. */
  function BehindAfter(behind: set<string>, hs: Histories, op: Op): set<string> {
    match op
    case DoPush(r, generated, _, _, saving) =>
      (match PushId(r, generated)
       case Err(_) => behind
       case Ok(id) => if ValidId(id) then Settle(behind, id, id in hs, saving) else behind)
    case DoReset(id, _, _, saving) => if ValidId(id) && id in hs then Settle(behind, id, true, saving) else behind
    case DoDelete(id) => if ValidId(id) then behind - {id} else behind
    case Restart(_, _) => behind
  }

  lemma ArchivedBehind(s: State, max: nat, id: string, content: string, now: int, savedAt: int, agent: string,
                       saving: Saving)
    requires id in s.mem.entries && s.mem.entries[id].id == id && Archives(saving)
    requires id in s.disk.entryFiles ==> NotNewer(s.disk.entryFiles[id], s.mem.entries[id])
    ensures Behind(Archived(s, max, id, content, now, savedAt, agent, saving)) == Settle(Behind(s), id, true, saving)
  {
    hide Last, Numbers, VersionsOf, DirOf;
  }

  lemma ArchivedBehindIf(s: State, max: nat, id: string, content: string, now: int, savedAt: int, agent: string,
                         saving: Saving)
    requires id in s.mem.entries && s.mem.entries[id].id == id
    requires id in s.disk.entryFiles ==> NotNewer(s.disk.entryFiles[id], s.mem.entries[id])
    ensures Archives(saving) ==>
              Behind(Archived(s, max, id, content, now, savedAt, agent, saving)) == Settle(Behind(s), id, true, saving)
    ensures !Archives(saving) ==> Behind(ArchiveFails(s, id, saving)) == Settle(Behind(s), id, true, saving)
  {
    if Archives(saving) {
      ArchivedBehind(s, max, id, content, now, savedAt, agent, saving);
    }
  }

  lemma CreatedBehind(s: State, e: Entry, saving: Saving)
    requires e.id !in s.mem.entries && e.id !in s.disk.entryFiles
    ensures Behind(Store(s, e.id, e, saving)) == Settle(Behind(s), e.id, false, saving)
  {
    assert forall id :: id in Behind(Store(s, e.id, e, saving)) <==> id in Settle(Behind(s), e.id, false, saving);
  }

  lemma PushIsTracked(s: State, max: nat, hs: Histories, op: Op, t: State)
    requires Refines(s, hs) && op.DoPush? && Apply(s, max, op) == Some(t)
    ensures Behind(t) == BehindAfter(Behind(s), hs, op)
  {
    hide ValidId, PushId, NewEntry, Window, WindowDir, Archived, ArchiveFails, Store, Behind, Settle;
    if PushId(op.r, op.generated).Ok? {
      var id := PushId(op.r, op.generated).value;
      if ValidId(id) {
        if id in hs {
          assert CanvasRefines(s, id, hs[id]);
          ArchivedBehindIf(s, max, id, op.r.content, op.now, op.savedAt, op.r.agent, op.saving);
        } else {
          CreatedBehind(s, NewEntry(op.r, id, op.now), op.saving);
        }
      }
    }
  }

  lemma ResetIsTracked(s: State, max: nat, hs: Histories, op: Op, t: State)
    requires Refines(s, hs) && op.DoReset? && Apply(s, max, op) == Some(t)
    ensures Behind(t) == BehindAfter(Behind(s), hs, op)
  {
    hide ValidId, Window, WindowDir, Archived, ArchiveFails, Behind, Settle;
    var id := op.id;
    if ValidId(id) && id in hs {
      assert CanvasRefines(s, id, hs[id]);
      ArchivedBehindIf(s, max, id, "", op.now, op.savedAt, "system", op.saving);
    }
  }

  lemma DeletedBehind(s: State, id: string)
    requires ValidId(id)
    ensures Behind(Delete(s, id).0) == Behind(s) - {id}
  {
    hide ValidId;
  }

  /** That is right as long as there are no restarts while some file is behind. */
  lemma BehindIsTracked(s: State, max: nat, hs: Histories, op: Op, t: State)
    requires max > 0 && Refines(s, hs) && Apply(s, max, op) == Some(t) && (op.Restart? ==> Behind(s) == {})
    ensures Behind(t) == BehindAfter(Behind(s), hs, op)
  {
    hide ValidId, Behind, Refines, Load;
    match op
    case DoPush(_, _, _, _, _) => PushIsTracked(s, max, hs, op, t);
    case DoReset(_, _, _, _) => ResetIsTracked(s, max, hs, op, t);
    case DoDelete(id) =>
      if ValidId(id) {
        DeletedBehind(s, id);
      }
    case Restart(_, o) => RestartRefinesIf(s, hs, o);
  }

  const EMPTY: State := State(Memory(map[], map[]), Disk(map[], map[]))

  /** No restart happens while an entry file is behind. */
  predicate RestartsAreSafe(behind: set<string>, max: nat, hs: Histories, ops: seq<Op>)
    decreases ops
  {
    ops == [] ||
    (&& (ops[0].Restart? ==> behind == {})
     && RestartsAreSafe(BehindAfter(behind, hs, ops[0]), LimitAfter(max, ops[0]), Remember(hs, max, ops[0]), ops[1..]))
  }

  /** The store shows the full histories after every operation of a run. */
  ghost predicate AlwaysRefines(s: State, max: nat, hs: Histories, ops: seq<Op>)
    requires Run(s, max, ops).Some?
    decreases ops
  {
    && Refines(s, hs)
    && (ops == [] || AlwaysRefines(Apply(s, max, ops[0]).value, LimitAfter(max, ops[0]), Remember(hs, max, ops[0]), ops[1..]))
  }

  lemma {:induction false} RunFromRefines(s: State, max: nat, hs: Histories, ops: seq<Op>)
    requires max > 0 && Refines(s, hs) && Run(s, max, ops).Some?
    ensures AlwaysRefines(s, max, hs, ops) <==> RestartsAreSafe(Behind(s), max, hs, ops)
    decreases ops
  {
    if ops != [] {
      var t := Apply(s, max, ops[0]).value;
      hide Refines, Behind, BehindAfter, Remember, Apply;
      ApplyRefines(s, max, hs, ops[0], t);
      if ops[0].Restart? ==> Behind(s) == {} {
        BehindIsTracked(s, max, hs, ops[0], t);
        RunFromRefines(t, LimitAfter(max, ops[0]), Remember(hs, max, ops[0]), ops[1..]);
      } else {
        assert !AlwaysRefines(t, LimitAfter(max, ops[0]), Remember(hs, max, ops[0]), ops[1..]);
      }
    }
  }

  /** Along any run of pushes, resets, deletions and restarts, under whatever limits and however the writes
      end, the store always shows for every canvas its last content and the last replaced contents of the
      full history, each under its own number, if and only if there is no restart between a write of an
      entry that fails and the next one of that canvas that succeeds, or its deletion. */
  lemma RunRefines(max: nat, ops: seq<Op>)
    requires max > 0 && Run(EMPTY, max, ops).Some?
    ensures AlwaysRefines(EMPTY, max, map[], ops) <==> RestartsAreSafe({}, max, map[], ops)
  {
    assert Behind(EMPTY) == {};
    RunFromRefines(EMPTY, max, map[], ops);
  }

  /** A run after which the store does not: the first write of an entry fails, and a restart comes before
      there is another one. */
  lemma LostExample() returns (ops: seq<Op>)
    ensures Run(EMPTY, 20, ops).Some? && !AlwaysRefines(EMPTY, 20, map[], ops)
  {
    hide Apply, Refines, BehindAfter, Remember, OrdersOf;
    var push := DoPush(Request("a", "a", "x", "html", "me"), None, 0, 0, EntryFails);
    var again := Restart(20, Orders([], map[]));
    ops := [push, again];
    assert ops[1..] == [again] && ops[1..][1..] == [];
    LosesA(push, again);
    var t := Apply(EMPTY, 20, push).value;
    assert Run(t, 20, [again]) == Run(Apply(t, 20, again).value, 20, []);
    RunRefines(20, ops);
  }

  lemma LosesA(push: Op, again: Op)
    requires push == DoPush(Request("a", "a", "x", "html", "me"), None, 0, 0, EntryFails)
    requires again == Restart(20, Orders([], map[]))
    ensures Apply(EMPTY, 20, push).Some? && Apply(Apply(EMPTY, 20, push).value, 20, again).Some?
    ensures BehindAfter({}, map[], push) == {"a"} && LimitAfter(20, push) == 20
  {
    PushesA(push);
    hide ValidId, PushId, NewEntry, Load;
    var t := Apply(EMPTY, 20, push).value;
    assert t.disk == EMPTY.disk && OrdersOf(t.disk, again.orders);
  }

  lemma PushesA(op: Op)
    requires op.DoPush? && op.r.id == "a"
    ensures PushId(op.r, op.generated) == Ok("a") && ValidId("a")
  {
    assert Trim("a") == "a";
  }

  /** A content does get lost: where the entry of a canvas that was up to date cannot be written, the push
      reports it, memory has the new content, and after a restart the canvas has the one before. */
  lemma PushIsForgotten(s: State, max: nat, hs: Histories, id: string, op: Op, o: Orders)
    requires max > 0 && Refines(s, hs) && id in hs && ValidId(id) && id !in Behind(s)
    requires op.DoPush? && PushId(op.r, op.generated) == Ok(id) && op.saving.EntryFails?
    requires OrdersOf(Push(s, max, op.r, op.generated, op.now, op.savedAt, EntryFails).0.disk, o)
    ensures var (t, result) := Push(s, max, op.r, op.generated, op.now, op.savedAt, EntryFails);
            var m := Load(t.disk, o, |o.entries|);
            && result == Err(CannotWriteEntry)
            && id in t.mem.entries && t.mem.entries[id].content == op.r.content
            && id in m.entries && m.entries[id] == s.mem.entries[id]
  {
    hide ValidId, PushId, CanvasRefines, Archive, Load;
    var t := Push(s, max, op.r, op.generated, op.now, op.savedAt, EntryFails).0;
    assert t.disk.entryFiles == s.disk.entryFiles by {
      FailedPush(s, max, op.r, op.generated, op.now, op.savedAt, EntryFails);
    }
    PushRefines(s, max, hs, op, t);
    LoadIsMemory(t, Remember(hs, max, op), o, id);
  }

  /** Under one limit all the time, these are all the replaced contents, or as many as the limit allows. */
  ghost predicate AllShown(hs: Histories, max: nat) {
    forall id :: id in hs ==> hs[id].shown == if |hs[id].retired| < max then |hs[id].retired| else max
  }

  lemma {:induction false} OneLimit(hs: Histories, max: nat, ops: seq<Op>)
    requires max > 0 && AllShown(hs, max)
    requires forall k :: 0 <= k < |ops| && ops[k].Restart? ==> LimitOf(ops[k].limit) == max
    ensures AllShown(RememberAll(hs, max, ops), max)
    decreases ops
  {
    hide ValidId, PushId;
    if ops != [] {
      assert LimitAfter(max, ops[0]) == max;
      OneLimit(Remember(hs, max, ops[0]), max, ops[1..]);
    }
  }

  /** What a user of the store sees of the full histories: what each canvas was created with, its last content,
      under its number, with the time that came, and of those before as many as there are or as the limit allows, the last ones, in order. */
  ghost predicate Shows(s: State, hs: Histories, max: nat) {
    s.mem.entries.Keys == hs.Keys && forall id :: id in hs ==> ShowsCanvas(s, id, hs[id], max)
  }

  ghost predicate ShowsCanvas(s: State, id: string, h: History, max: nat) {
    var contents := h.contents;
    && id in s.mem.entries && contents != []
    && var e, vs, n := s.mem.entries[id], VersionsOf(s.mem, id), |contents|;
       && e == Entry(id, h.made.name, contents[n - 1], h.made.kind, h.made.at, h.UpdatedAt(), n)
       && |vs| == (if n - 1 < max then n - 1 else max)
       && forall j :: 0 <= j < |vs| ==> vs[j].number == n - |vs| + j && vs[j].content == contents[n - |vs| + j - 1]
  }

  lemma RefinesShows(s: State, hs: Histories, max: nat)
    requires Refines(s, hs) && AllShown(hs, max)
    ensures Shows(s, hs, max)
  {
    hide ValidId, WindowDir;
    forall id | id in hs
      ensures ShowsCanvas(s, id, hs[id], max)
    {
      assert CanvasRefines(s, id, hs[id]);
    }
  }

  lemma {:induction false} RefinesAtTheEnd(s: State, max: nat, hs: Histories, ops: seq<Op>)
    requires Run(s, max, ops).Some? && AlwaysRefines(s, max, hs, ops)
    ensures Refines(Run(s, max, ops).value, RememberAll(hs, max, ops))
    decreases ops
  {
    hide Refines, Remember, Apply;
    if ops != [] {
      RefinesAtTheEnd(Apply(s, max, ops[0]).value, LimitAfter(max, ops[0]), Remember(hs, max, ops[0]), ops[1..]);
    }
  }

  /** The store after a run under one limit, in which no restart meets an entry file that is behind: every
      canvas has its last content and the last `max` of those before, however often it was restarted. */
  lemma RunShows(max: nat, ops: seq<Op>)
    requires max > 0 && Run(EMPTY, max, ops).Some? && RestartsAreSafe({}, max, map[], ops)
    requires forall k :: 0 <= k < |ops| && ops[k].Restart? ==> LimitOf(ops[k].limit) == max
    ensures Shows(Run(EMPTY, max, ops).value, RememberAll(map[], max, ops), max)
  {
    RunRefines(max, ops);
    RefinesAtTheEnd(EMPTY, max, map[], ops);
    OneLimit(map[], max, ops);
    RefinesShows(Run(EMPTY, max, ops).value, RememberAll(map[], max, ops), max);
  }

  /** Whatever limits there were, never more than the highest of them. */
  lemma {:induction false} ShownBound(hs: Histories, max: nat, ops: seq<Op>, most: nat)
    requires 0 < max <= most && forall id :: id in hs ==> hs[id].shown <= most
    requires forall k :: 0 <= k < |ops| && ops[k].Restart? ==> LimitOf(ops[k].limit) <= most
    ensures forall id :: id in RememberAll(hs, max, ops) ==> RememberAll(hs, max, ops)[id].shown <= most
    decreases ops
  {
    hide ValidId, PushId;
    if ops != [] {
      ShownBound(Remember(hs, max, ops[0]), LimitAfter(max, ops[0]), ops[1..], most);
    }
  }

  /** The push gets as far as the write of the entry, and that fails. */
  predicate EntryIsLost(r: Request, generated: Option<string>, saving: Saving) {
    saving.EntryFails? && PushId(r, generated).Ok? && ValidId(PushId(r, generated).value)
  }

  /** A failed push changes no entry file, and nothing in memory either if and only if it did not get as far
      as a write of the entry that failed. */
  lemma FailedPush(s: State, max: nat, r: Request, generated: Option<string>, now: int, savedAt: int, saving: Saving)
    requires Push(s, max, r, generated, now, savedAt, saving).1.Err?
    ensures var t := Push(s, max, r, generated, now, savedAt, saving).0;
            t.disk.entryFiles == s.disk.entryFiles && (t.mem == s.mem <==> !EntryIsLost(r, generated, saving))
  {
    hide ValidId, NewEntry, Last, Numbers, Trim;
    var t := Push(s, max, r, generated, now, savedAt, saving).0;
    if EntryIsLost(r, generated, saving) {
      var id := PushId(r, generated).value;
      assert id in t.mem.entries && (id in s.mem.entries ==> t.mem.entries[id].version == s.mem.entries[id].version + 1);
    }
  }

  /** An entry is stored, and it is the newest content of the full history, under the number of its place. */
  ghost predicate IsNewest(t: State, hs: Histories, e: Entry, content: string) {
    && e.id in t.mem.entries && t.mem.entries[e.id] == e && e.content == content
    && e.id in hs && e.version == |hs[e.id].contents| > 0 && hs[e.id].contents[e.version - 1] == content
    && Made(e.name, e.kind, e.createdAt) == hs[e.id].made && e.updatedAt == hs[e.id].UpdatedAt()
  }

  /** A successful push returns the entry it stored, which is the newest content. */
  lemma SuccessfulPush(s: State, max: nat, hs: Histories, r: Request, generated: Option<string>, now: int, savedAt: int,
                       saving: Saving)
    requires max > 0 && Refines(s, hs) && Push(s, max, r, generated, now, savedAt, saving).1.Ok?
    ensures IsNewest(Push(s, max, r, generated, now, savedAt, saving).0,
                     Remember(hs, max, DoPush(r, generated, now, savedAt, saving)),
                     Push(s, max, r, generated, now, savedAt, saving).1.value, r.content)
    ensures AnswersPush(hs, r, generated, now, Push(s, max, r, generated, now, savedAt, saving).1.value)
  {
    hide IsNewest, AnswersPush, Push, Remember, Refines;
    NewestAfterPush(s, max, hs, r, generated, now, savedAt, saving);
    PushIsAnswered(s, max, hs, r, generated, now, savedAt, saving);
  }

  /** The entry is the one asked for, or has the id generated for a blank one; a new one is made by the request. */
  predicate AnswersPush(hs: Histories, r: Request, generated: Option<string>, now: int, e: Entry) {
    && (if Blank(r.id) then generated == Some(e.id) else e.id == r.id) && e.updatedAt == now
    && (e.id !in hs ==> Made(e.name, e.kind, e.createdAt) == MadeBy(r, e.id, now) && e.version == 1)
  }

  lemma PushIsAnswered(s: State, max: nat, hs: Histories, r: Request, generated: Option<string>, now: int, savedAt: int,
                       saving: Saving)
    requires Refines(s, hs) && Push(s, max, r, generated, now, savedAt, saving).1.Ok?
    ensures AnswersPush(hs, r, generated, now, Push(s, max, r, generated, now, savedAt, saving).1.value)
  {
    hide ValidId, Trim, Blank, NewEntry, Archived, Refines;
    BlankIsEmpty(r.id);
    var id := PushId(r, generated).value;
    NewEntryIs(r, id, now);
    EntryNow(s, hs, id);
    if id in hs {
      ArchivedEntry(s, max, id, r.content, now, savedAt, r.agent, saving);
    }
  }

  lemma EntryNow(s: State, hs: Histories, id: string)
    requires Refines(s, hs)
    ensures id in s.mem.entries <==> id in hs
    ensures id in hs ==> s.mem.entries[id].id == id
  {
    hide Window, WindowDir;
    assert id in hs ==> CanvasRefines(s, id, hs[id]);
  }

  lemma ArchivedEntry(s: State, max: nat, id: string, content: string, now: int, savedAt: int, agent: string, saving: Saving)
    requires id in s.mem.entries
    ensures var t := Archived(s, max, id, content, now, savedAt, agent, saving);
            id in t.mem.entries && t.mem.entries[id] ==
            s.mem.entries[id].(content := content, updatedAt := now, version := s.mem.entries[id].version + 1)
  {
    hide Archive;
  }

  lemma NewestAfterPush(s: State, max: nat, hs: Histories, r: Request, generated: Option<string>, now: int, savedAt: int,
                        saving: Saving)
    requires max > 0 && Refines(s, hs) && Push(s, max, r, generated, now, savedAt, saving).1.Ok?
    ensures IsNewest(Push(s, max, r, generated, now, savedAt, saving).0,
                     Remember(hs, max, DoPush(r, generated, now, savedAt, saving)),
                     Push(s, max, r, generated, now, savedAt, saving).1.value, r.content)
  {
    hide ValidId, Trim, Blank, NewEntry, Archive, Window, WindowDir;
    var id := PushId(r, generated).value;
    NewEntryIs(r, id, now);
    if id in hs {
      assert CanvasRefines(s, id, hs[id]);
    }
  }

  /** What keeps a push or a reset of a canvas from being done: `id` is the id it is for, `there` whether it has
      a content already, whose version has to be saved before. */
  predicate Hinders(id: string, there: bool, saving: Saving, e: Error) {
    match e
    case InvalidId => !ValidId(id)
    case CannotCreateDir => ValidId(id) && there && saving.MkdirFails?
    case CannotWriteVersion => ValidId(id) && there && saving.WriteFails?
    case CannotWriteEntry => ValidId(id) && saving.EntryFails?
    case _ => false
  }

  /** A push fails exactly if there is no id to be had, or if that keeps it from being done. */
  lemma PushFailsFor(s: State, max: nat, hs: Histories, r: Request, generated: Option<string>, now: int, savedAt: int,
                     saving: Saving, e: Error)
    requires Refines(s, hs)
    ensures Push(s, max, r, generated, now, savedAt, saving).1 == Err(e) <==>
            if Blank(r.id) && generated.None? then e.NoRandomness?
            else var id := if Blank(r.id) then generated.value else r.id; Hinders(id, id in hs, saving, e)
  {
    BlankIsEmpty(r.id);
    hide ValidId, Trim, Blank, NewEntry, Archived, CanvasRefines;
  }

  lemma ResetFailsFor(s: State, max: nat, hs: Histories, id: string, now: int, savedAt: int, saving: Saving, e: Error)
    requires Refines(s, hs)
    ensures Reset(s, max, id, now, savedAt, saving).1 == Some(e) <==>
            if ValidId(id) && id !in hs then e.NotFound? else Hinders(id, true, saving, e)
  {
    hide ValidId, Archived, CanvasRefines;
  }

  /** A deletion fails exactly for an id that is not accepted; one that there is no canvas for is no error. */
  lemma DeleteFailsFor(s: State, id: string, e: Error)
    ensures Delete(s, id).1 == Some(e) <==> Hinders(id, true, Saved, e)
  {
    hide ValidId;
  }

  /** `GetVersion` can find exactly the numbers in the window, and finds what was current under them. */
  lemma VersionLookup(s: State, hs: Histories, id: string, number: nat)
    requires Refines(s, hs) && id in hs
    ensures var vs, h := VersionsOf(s.mem, id), hs[id];
            && ((exists v :: v in vs && v.number == number) <==>
                0 < number <= |h.retired| && |h.retired| < number + h.shown)
            && (forall v :: v in vs && v.number == number ==> v.content == h.contents[number - 1])
  {
    hide ValidId, WindowDir;
    assert CanvasRefines(s, id, hs[id]);
    var vs, h := VersionsOf(s.mem, id), hs[id];
    if 0 < number <= |h.retired| && |h.retired| < number + h.shown {
      assert vs[number + |vs| - |h.contents|].number == number;
    }
  }
}
