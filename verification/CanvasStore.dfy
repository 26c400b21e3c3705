/**
 The canvas store of pkg/canvas/store.go in its own form: an object whose entries are records updated in
 place, whose version lists are appended to and pruned, and which writes files as it goes. Each method is
 proved to do what `CanvasModel` says; what that means over whole runs is proved there.
 */
module CanvasStore {
  import opened Wrappers
  import opened Text
  import opened CanvasModel

  class CanvasEntry {
    const id: string
    const name: string
    const kind: string
    const createdAt: int
    var content: string
    var updatedAt: int
    var version: nat

    constructor (e: Entry)
      ensures Value() == e
    {
      id, name, kind, createdAt := e.id, e.name, e.kind, e.createdAt;
      content, updatedAt, version := e.content, e.updatedAt, e.version;
    }

    function Value(): Entry
      reads this
    {
      Entry(id, name, content, kind, createdAt, updatedAt, version)
    }

    /** The three assignments by which `Push` and `Reset` replace an entry's content. */
    method Replace(newContent: string, now: int)
      modifies this
      ensures Value() == old(Value()).(content := newContent, updatedAt := now, version := old(version) + 1)
    {
      content := newContent;
      updatedAt := now;
      version := version + 1;
    }
  }

  lemma UpdateTwice<K, V>(m: map<K, V>, k: K, v: V, w: V)
    ensures m[k := v][k := w] == m[k := w]
  {
  }

  /** The error that a push or a reset of a canvas that is there ends with. */
  function FailureOf(saving: Saving): Option<Error> {
    match saving
    case Saved => None
    case MkdirFails => Some(CannotCreateDir)
    case WriteFails => Some(CannotWriteVersion)
    case EntryFails => Some(CannotWriteEntry)
  }

  class CanvasStore {
    const maxVersions: nat
    var entries: map<string, CanvasEntry>
    var versions: map<string, seq<Version>>
    var files: Disk

    ghost predicate Valid()
      reads this
    {
      maxVersions > 0 && forall i, j :: i in entries && j in entries && i != j ==> entries[i] != entries[j]
    }

    ghost function View(): State
      reads this, entries.Values
    {
      State(Memory(map id | id in entries :: entries[id].Value(), versions), files)
    }

    /** `NewStore`: a non-positive limit becomes 20; then the files are loaded, in the order the
        directories list them. */
    constructor (limit: int, disk: Disk, orders: Orders)
      requires OrdersOf(disk, orders)
      ensures Valid() && maxVersions == if limit > 0 then limit else 20
      ensures View() == State(Load(disk, orders, |orders.entries|), disk)
    {
      maxVersions := LimitOf(limit);
      entries, versions, files := map[], map[], disk;
      new;
      hide ValidId, SortByNumber, Load;
      LoadAll(orders);
    }

    /** `load`. */
    method LoadAll(orders: Orders)
      requires Valid() && OrdersOf(files, orders) && entries == map[] && versions == map[]
      modifies this`entries, this`versions
      ensures Valid() && fresh(entries.Values) && View().mem == Load(files, orders, |orders.entries|)
    {
      hide ValidId, SortByNumber;
      for n := 0 to |orders.entries|
        invariant Valid() && fresh(entries.Values)
        invariant View().mem == Load(files, orders, n)
      {
        LoadEntry(orders, n);
      }
    }

    twostate lemma SameEntries()
      requires entries == old(entries) && forall id :: id in entries ==> unchanged(entries[id])
      ensures View() == State(Memory(old(View()).mem.entries, versions), files)
      ensures old(View()).mem.versions == old(versions)
    {
    }

    /** One round of `load`: one entry file and the versions beside it. */
    method LoadEntry(orders: Orders, n: nat)
      requires Valid() && OrdersOf(files, orders) && n < |orders.entries| && View().mem == Load(files, orders, n)
      modifies this`entries, this`versions
      ensures Valid() && View().mem == Load(files, orders, n + 1)
      ensures fresh(entries.Values - old(entries.Values))
    {
      hide ValidId, SortByNumber, View;
      assert orders.entries[n] in orders.entries;
      var e := files.entryFiles[orders.entries[n]];
      if ValidId(e.id) {
        AddEntry(e);
        if e.id in files.versionDirs {
          label Added:
          versions := versions[e.id := SortByNumber(ReadAll(files.versionDirs[e.id], orders.versions[e.id]))];
          SameEntries@Added();
        }
      }
    }

    /** `pruneVersions`: the oldest versions beyond the limit go, with their files. */
    method PruneVersions(id: string)
      requires id in versions && id in files.versionDirs
      modifies this`versions, this`files
      ensures var all := old(versions)[id];
              var kept := Last(all, maxVersions);
              && versions == old(versions)[id := kept]
              && files == old(files).(versionDirs :=
                   old(files).versionDirs[id := old(files).versionDirs[id] - Numbers(all[..|all| - |kept|])])
    {
      var all := versions[id];
      ghost var dir0 := files.versionDirs[id];
      if |all| <= maxVersions {
        assert Numbers(all[..0]) == {};
        assert dir0 - {} == dir0;
        assert versions[id := all] == versions;
        assert files.versionDirs[id := dir0] == files.versionDirs;
        return;
      }
      var toRemove := all[..|all| - maxVersions];
      var dir := files.versionDirs[id];
      for k := 0 to |toRemove|
        invariant dir == dir0 - Numbers(toRemove[..k])
      {
        assert toRemove[..k + 1] == toRemove[..k] + [toRemove[k]];
        assert Numbers(toRemove[..k + 1]) == Numbers(toRemove[..k]) + {toRemove[k].number};
        dir := dir - {toRemove[k].number};
      }
      assert toRemove[..|toRemove|] == toRemove;
      files := files.(versionDirs := files.versionDirs[id := dir]);
      versions := versions[id := all[|toRemove|..]];
    }

    /** The memory and the files without the entries, which archiving does not look at. */
    ghost function Shelf(): State
      reads this
    {
      State(Memory(map[], versions), files)
    }

    /** `saveVersionLocked`. */
    method SaveVersion(entry: CanvasEntry, agent: string, now: int, saving: Saving) returns (ok: bool)
      modifies this`versions, this`files
      ensures ok <==> Archives(saving)
      ensures Shelf() == if ok then Archive(old(Shelf()), maxVersions, entry.Value(), now, agent)
                         else ArchiveFails(old(Shelf()), entry.id, saving)
    {
      hide Last, Numbers;
      if saving.MkdirFails? {
        return false;
      }
      var id := entry.id;
      var dir := DirOf(files, id);
      if saving.WriteFails? {
        files := files.(versionDirs := files.versionDirs[id := dir]);
        return false;
      }
      AddVersion(id, Version(entry.version, entry.content, now, agent));
      ok := true;
    }

    /** Writing a version's file, appending it to the list and pruning. */
    method AddVersion(id: string, version: Version)
      modifies this`versions, this`files
      ensures var all := VersionsOf(old(Shelf()).mem, id) + [version];
              var kept := Last(all, maxVersions);
              && versions == old(versions)[id := kept]
              && files == old(files).(versionDirs := old(files).versionDirs[id :=
                   DirOf(old(files), id)[version.number := version] - Numbers(all[..|all| - |kept|])])
    {
      hide Last, Numbers, DirOf, VersionsOf;
      var dir := DirOf(files, id)[version.number := version];
      var all := VersionsOf(Memory(map[], versions), id) + [version];
      files := files.(versionDirs := files.versionDirs[id := dir]);
      versions := versions[id := all];
      PruneVersions(id);
      UpdateTwice(old(versions), id, all, versions[id]);
      UpdateTwice(old(files).versionDirs, id, dir, files.versionDirs[id]);
    }

    /** Changing one record changes what is known about its canvas only. */
    twostate lemma OneChanged(id: string)
      requires entries == old(entries) && versions == old(versions) && id in entries
      requires forall other :: other in entries && other != id ==> unchanged(entries[other])
      ensures View() == State(Memory(old(View()).mem.entries[id := entries[id].Value()], old(View()).mem.versions), files)
      ensures old(View()).disk == old(files)
    {
    }

    /** The entry's new content, in the record and, if it can be written, in its file. */
    method StoreContent(id: string, content: string, now: int, saving: Saving) returns (ok: bool)
      requires Valid() && id in entries
      modifies this`files, entries[id]
      ensures Valid() && (ok <==> !saving.EntryFails?)
      ensures var e := old(entries[id].Value());
              View() == Store(old(View()), id, e.(content := content, updatedAt := now, version := e.version + 1), saving)
    {
      hide View;
      var entry := entries[id];
      entry.Replace(content, now);
      ok := SaveEntry(entry, saving);
      OneChanged(id);
    }

    /** What `Push` and `Reset` share: the current content becomes a version, the new one takes its place. */
    method Supersede(id: string, content: string, agent: string, now: int, savedAt: int, saving: Saving)
      returns (failure: Option<Error>)
      requires Valid() && id in entries
      modifies this`versions, this`files, entries[id]
      ensures Valid() && failure == FailureOf(saving)
      ensures View() == if Archives(saving) then Archived(old(View()), maxVersions, id, content, now, savedAt, agent, saving)
                        else ArchiveFails(old(View()), entries[id].id, saving)
    {
      hide Archive, ArchiveFails, Store, View;
      var e := EntryValue(id);
      var ok := ArchiveEntry(id, agent, savedAt, saving);
      if !ok {
        return Some(if saving.MkdirFails? then CannotCreateDir else CannotWriteVersion);
      }
      ok := StoreContent(id, content, now, saving);
      ArchivedIs(old(View()), maxVersions, id, content, now, savedAt, agent, saving, e);
      failure := if ok then None else Some(CannotWriteEntry);
    }

    /** The entry as it is now. */
    method EntryValue(id: string) returns (e: Entry)
      requires Valid() && id in entries
      ensures e == entries[id].Value() && id in View().mem.entries && View().mem.entries[id] == e
    {
      e := entries[id].Value();
    }

    /** `saveVersionLocked`, seen from the whole store. */
    method ArchiveEntry(id: string, agent: string, savedAt: int, saving: Saving) returns (ok: bool)
      requires Valid() && id in entries
      modifies this`versions, this`files
      ensures Valid() && (ok <==> Archives(saving))
      ensures View() == if ok then Archive(old(View()), maxVersions, old(entries[id].Value()), savedAt, agent)
                        else ArchiveFails(old(View()), entries[id].id, saving)
    {
      hide Archive;
      var entry := entries[id];
      ok := SaveVersion(entry, agent, savedAt, saving);
      ArchiveIgnoresEntries(old(View()), maxVersions, entry.Value(), savedAt, agent);
      assert View().mem.entries == old(View()).mem.entries;
    }

    /** A canvas that was not there before. */
    method Create(e: Entry, saving: Saving) returns (ok: bool)
      requires Valid()
      modifies this`entries, this`files
      ensures Valid() && fresh(entries.Values - old(entries.Values))
      ensures View() == Store(old(View()), e.id, e, saving) && (ok <==> !saving.EntryFails?)
    {
      AddEntry(e);
      label Added:
      ok := SaveEntry(entries[e.id], saving);
      OneChanged@Added(e.id);
      hide View;
    }

    /** A new record under the id of its entry. */
    method AddEntry(e: Entry)
      requires Valid()
      modifies this`entries
      ensures Valid() && fresh(entries.Values - old(entries.Values))
      ensures e.id in entries && entries[e.id].Value() == e
      ensures View() == old(View()).(mem := old(View()).mem.(entries := old(View()).mem.entries[e.id := e]))
    {
      var entry := new CanvasEntry(e);
      entries := entries[e.id := entry];
      assert View().mem.entries == old(View()).mem.entries[e.id := e];
    }

    /** `Push`. */
    method Push(r: Request, generated: Option<string>, now: int, savedAt: int, saving: Saving)
      returns (result: Result<Entry, Error>)
      requires Valid()
      modifies this, entries.Values
      ensures Valid() && fresh(entries.Values - old(entries.Values))
      ensures (View(), result) == CanvasModel.Push(old(View()), maxVersions, r, generated, now, savedAt, saving)
    {
      hide ValidId, Archived, ArchiveFails, Store, Trim, NewEntry;
      var id := r.id;
      if Trim(r.id) == "" {
        if generated.None? {
          return Err(NoRandomness);
        }
        id := generated.value;
      }
      if !ValidId(id) {
        return Err(InvalidId);
      }
      if id in entries {
        var failure := Supersede(id, r.content, r.agent, now, savedAt, saving);
        if failure.Some? {
          return Err(failure.value);
        }
        return Ok(entries[id].Value());
      } else {
        var e := NewEntry(r, id, now);
        var ok := Create(e, saving);
        if !ok {
          return Err(CannotWriteEntry);
        }
        return Ok(e);
      }
    }

    /** `Reset`. */
    method Reset(id: string, now: int, savedAt: int, saving: Saving) returns (failure: Option<Error>)
      requires Valid()
      modifies this, entries.Values
      ensures Valid() && entries == old(entries)
      ensures (View(), failure) == CanvasModel.Reset(old(View()), maxVersions, id, now, savedAt, saving)
    {
      hide ValidId, ArchiveFails;
      if !ValidId(id) {
        return Some(InvalidId);
      }
      if id !in entries {
        return Some(NotFound);
      }
      failure := Supersede(id, "", "system", now, savedAt, saving);
    }

    /** `Delete`. */
    method Delete(id: string) returns (failure: Option<Error>)
      requires Valid()
      modifies this
      ensures Valid()
      ensures (View(), failure) == CanvasModel.Delete(old(View()), id)
    {
      hide ValidId;
      if !ValidId(id) {
        return Some(InvalidId);
      }
      entries := entries - {id};
      files := Disk(files.entryFiles - {id}, files.versionDirs - {id});
      versions := versions - {id};
      assert View().mem.entries == old(View()).mem.entries - {id};
      failure := None;
    }

    /** `GetVersions`: the last `limit` versions, or all of them where the limit is not positive. */
    method GetVersions(id: string, limit: int) returns (result: seq<Version>)
      ensures result == if limit > 0 then Last(VersionsOf(View().mem, id), limit) else VersionsOf(View().mem, id)
    {
      if id !in versions || |versions[id]| == 0 {
        return [];
      }
      result := [];
      for i := 0 to |versions[id]|
        invariant result == versions[id][..i]
      {
        result := result + [versions[id][i]];
      }
      if limit > 0 && |result| > limit {
        result := result[|result| - limit..];
      }
    }

    /** `GetVersion`: the first stored version with that number. */
    method GetVersion(id: string, number: int) returns (result: Option<Version>)
      ensures var vs := VersionsOf(View().mem, id);
              match result
              case None => forall v :: v in vs ==> v.number != number
              case Some(v) =>
                exists i :: 0 <= i < |vs| && vs[i] == v && v.number == number
                            && forall k :: 0 <= k < i ==> vs[k].number != number
    {
      var vs := if id in versions then versions[id] else [];
      for i := 0 to |vs|
        invariant forall k :: 0 <= k < i ==> vs[k].number != number
      {
        if vs[i].number == number {
          return Some(vs[i]);
        }
      }
      result := None;
    }

    /** `saveEntry` when its writes succeed. */
    method SaveEntry(entry: CanvasEntry, saving: Saving) returns (ok: bool)
      modifies this`files
      ensures ok <==> !saving.EntryFails?
      ensures files == if ok then old(files).(entryFiles := old(files).entryFiles[entry.id := entry.Value()])
                       else old(files)
    {
      if saving.EntryFails? {
        return false;
      }
      ok := true;
      files := files.(entryFiles := files.entryFiles[entry.id := entry.Value()]);
    }
  }
}
