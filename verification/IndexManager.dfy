/**
 The object behind pkg/index/index.go. Its records are updated in place; `View` is their meaning, on which
 every method does what the model in `IndexLifecycle` says.
 */
module IndexManager {
  import opened Chunking
  import opened IndexBatches
  import opened IndexLifecycle
  import opened Wrappers

  datatype IndexError =
    | AlreadyExists
    | NotFound
    | NotReady(status: Status)
    | DimensionsDiffer
    | DistanceDiffers
    | Failed(message: string)

  /** Why `Index` does not start, if it does not: there is no such index, or it is not Ready. */
  function Refusal(m: Indexes, name: string): Option<IndexError> {
    if name !in m then Some(NotFound)
    else if m[name].status != Ready then Some(NotReady(m[name].status))
    else None
  }

  /** Why an update is not taken: other dimensions come before another distance. */
  function Objection(i: Info, config: Config): Option<IndexError> {
    if config.dimensions !in {0, i.dimensions} then Some(DimensionsDiffer)
    else if config.distance !in {"", i.distance} then Some(DistanceDiffers)
    else None
  }

  /** The failure of two calls, the second of which is not made where the first fails. */
  function Then(first: Outcome, second: Outcome): Outcome {
    if first.Some? then first else second
  }

  function FailureOf(outcome: Outcome): Option<IndexError> {
    if outcome.Some? then Some(Failed(outcome.value)) else None
  }

  /** What `Index` reports; `Rebuild` reports zeros. */
  datatype IndexResult = IndexResult(total: nat, indexed: nat, failed: nat)

  class Record {
    var name: string
    var tableName: string
    var dimensions: int
    var distance: string
    var metadata: seq<string>
    var auxColumns: seq<string>
    var status: Status
    var error: string
    var vectorCount: int

    constructor (config: Config)
      ensures View() == Created(config).(status := Creating)
    {
      name := config.name;
      tableName := config.TableNameOrDefault();
      dimensions := config.dimensions;
      distance := if config.distance == "" then "cosine" else config.distance;
      metadata := config.metadata;
      auxColumns := config.auxColumns;
      status := Creating;
      error := "";
      vectorCount := 0;
    }

    function View(): Info
      reads this
    {
      Info(name, tableName, dimensions, distance, metadata, auxColumns, status, error, vectorCount)
    }

    /** `Update` of one record. */
    method Change(config: Config) returns (err: Option<IndexError>)
      modifies this
      ensures View() == Updated(old(View()), config)
      ensures err == Objection(old(View()), config) && (err.None? <==> status == Ready)
    {
      status := Updating;
      if config.dimensions != 0 && config.dimensions != dimensions {
        Fail("cannot change dimensions of existing index");
        return Some(DimensionsDiffer);
      }
      if config.distance != "" && config.distance != distance {
        Fail("cannot change distance metric of existing index");
        return Some(DistanceDiffers);
      }
      if |config.metadata| > 0 {
        metadata := config.metadata;
      }
      if |config.auxColumns| > 0 {
        auxColumns := config.auxColumns;
      }
      status := Ready;
      error := "";
      err := None;
    }

    /** `Index` of one record that is Ready; `insertErr` is the vector store's refusal, if any. */
    method Fill(items: seq<Item>, hasEmbedder: bool, replies: seq<BatchReply>, inserts: seq<Option<string>>, count: int)
      returns (r: IndexResult, insertErr: Outcome, sent: seq<VecItem>, done: nat)
      requires |replies| == |inserts| == |Chunks(items, BATCH_SIZE)|
      modifies this`status, this`error, this`vectorCount
      ensures View() == Indexed(old(View()), insertErr, count)
      ensures WentThrough(Chunks(items, BATCH_SIZE), hasEmbedder, replies, inserts, done, sent)
      ensures r.total == |items| && r.indexed == |sent|
      ensures insertErr.None? ==> done == |replies| && r.indexed + r.failed == |items|
      ensures insertErr.Some? ==> done < |replies| && insertErr == inserts[done]
                                  && r.indexed + r.failed == Min((done + 1) * BATCH_SIZE, |items|)
    {
      status := Updating;
      error := "";
      var indexed, failed, end, reports;
      indexed, failed, insertErr, sent, done, end, reports := IndexItems(items, hasEmbedder, replies, inserts);
      hide WentThrough, Refused, Forward, Chunks, Min;
      r := IndexResult(|items|, indexed, failed);
      if insertErr.Some? {
        status := Error;
        error := insertErr.value;
      } else {
        status := Ready;
        error := "";
      }
      vectorCount := count;
    }

    /** `Rebuild` of one record. */
    method Recreate(drop: Outcome, init: Outcome)
      modifies this`status, this`error, this`vectorCount
      ensures View() == Rebuilt(old(View()), drop, init)
    {
      status := Rebuilding;
      error := "";
      if drop.Some? {
        Fail(drop.value);
        return;
      }
      if init.Some? {
        Fail(init.value);
        return;
      }
      status := Ready;
      error := "";
      vectorCount := 0;
    }

    method Fail(message: string)
      modifies this`status, this`error
      ensures View() == old(View()).(status := Error, error := message)
    {
      status := Error;
      error := message;
    }
  }

  class Manager {
    const hasEmbedder: bool
    var indexes: map<string, Record>
    /** The database, as far as the operations change what there is in it. */
    var stored: Stored

    /** Each record is kept under its own name, so no two names share one. */
    ghost predicate Valid()
      reads this`indexes, indexes.Values
    {
      forall n :: n in indexes ==> indexes[n].name == n
    }

    ghost function View(): Indexes
      reads this`indexes, indexes.Values
    {
      map n | n in indexes :: indexes[n].View()
    }

    constructor (hasEmbedder: bool)
      ensures Valid() && View() == map[] && this.hasEmbedder == hasEmbedder && stored == Stored({}, {})
    {
      this.hasEmbedder := hasEmbedder;
      stored := Stored({}, {});
      indexes := map[];
    }

    /** Changing one record changes what is known about its index only. */
    twostate lemma OneChanged(name: string)
      requires old(Valid()) && Valid() && indexes == old(indexes) && name in indexes
      requires forall n :: n in indexes && n != name ==> unchanged(indexes[n])
      ensures View() == old(View())[name := indexes[name].View()]
      ensures name in old(View()) && old(View())[name] == old(indexes[name].View())
    {
    }

    lemma ViewAt(name: string)
      ensures name in View() <==> name in indexes
      ensures name in indexes ==> View()[name] == indexes[name].View()
    {
    }

    twostate lemma OneRemoved(name: string)
      requires indexes == old(indexes) - {name}
      requires forall n :: n in indexes ==> unchanged(indexes[n])
      ensures View() == old(View()) - {name}
    {
    }

    twostate lemma OneAdded(name: string, new record: Record)
      requires name !in old(indexes) && indexes == old(indexes)[name := record]
      requires forall n :: n in old(indexes) ==> unchanged(old(indexes)[n])
      ensures View() == old(View())[name := record.View()]
    {
    }

    method Create(config: Config, save: Outcome, init: Outcome, cleanup: Outcome, saveReady: Outcome, there: bool)
      returns (r: Result<Record, IndexError>)
      requires Valid()
      modifies this`indexes, this`stored
      ensures Valid() && View() == Apply(old(View()), Operation.Create(config, save, init, cleanup, saveReady))
      ensures stored == StoredAfter(old(View()), old(stored), Operation.Create(config, save, init, cleanup, saveReady), there)
      ensures r.Ok? <==> config.name !in old(indexes) && save.None? && init.None? && saveReady.None?
      ensures r.Ok? ==> fresh(r.value) && config.name in indexes && indexes[config.name] == r.value
      ensures r.Err? ==> indexes == old(indexes)
      ensures r.Err? ==> Some(r.error) == if config.name in indexes then Some(AlreadyExists)
                                          else FailureOf(Then(save, Then(init, saveReady)))
    {
      hide View;
      ViewAt(config.name);
      if config.name in indexes {
        return Err(AlreadyExists);
      }
      var record := new Record(config);
      if save.Some? {
        return Err(Failed(save.value));
      }
      stored := stored.(rows := stored.rows + {config.name});
      stored := WithTable(stored, record.tableName, init.None? || record.tableName in stored.tables || there);
      if init.Some? {
        if cleanup.None? {
          stored := stored.(rows := stored.rows - {config.name});
          assert old(stored).rows + {config.name} - {config.name} == old(stored).rows - {config.name};
        }
        return Err(Failed(init.value));
      }
      record.status := Ready;
      record.error := "";
      if saveReady.Some? {
        return Err(Failed(saveReady.value));
      }
      indexes := indexes[config.name := record];
      OneAdded(config.name, record);
      r := Ok(record);
    }

    /** `save` is the outcome of the last write, which fails when the record has changed already. */
    method Update(name: string, config: Config, save: Outcome) returns (r: Result<Record, IndexError>)
      requires Valid()
      modifies indexes.Values
      ensures Valid() && View() == Apply(old(View()), Operation.Update(name, config)) && indexes == old(indexes)
      ensures r.Ok? ==> name in indexes && r.value == indexes[name]
      ensures r == Err(NotFound) <==> name !in indexes
      ensures r.Ok? <==> name in indexes && Objection(old(View()[name]), config).None? && save.None?
      ensures r.Err? && name in indexes ==>
                Some(r.error) == if Objection(old(View()[name]), config).Some? then Objection(old(View()[name]), config)
                                 else FailureOf(save)
    {
      hide Rebuilt, Created, Indexed, View;
      ViewAt(name);
      if name !in indexes {
        return Err(NotFound);
      }
      var record := indexes[name];
      var err := record.Change(config);
      OneChanged(name);
      if err.Some? {
        return Err(err.value);
      }
      if save.Some? {
        return Err(Failed(save.value));
      }
      r := Ok(record);
    }

    method Delete(name: string, drop: Outcome, deleteMeta: Outcome, there: bool) returns (err: Option<IndexError>)
      requires Valid()
      modifies this`indexes, this`stored, indexes.Values
      ensures Valid() && View() == Apply(old(View()), Operation.Delete(name, drop, deleteMeta))
      ensures stored == StoredAfter(old(View()), old(stored), Operation.Delete(name, drop, deleteMeta), there)
      ensures err == if name in old(indexes) then FailureOf(Then(drop, deleteMeta)) else Some(NotFound)
    {
      hide Rebuilt, Created, Updated, Indexed, View;
      ViewAt(name);
      if name !in indexes {
        return Some(NotFound);
      }
      var record := indexes[name];
      record.status := Deleting;
      stored := WithTable(stored, record.tableName, drop.Some? && there);
      if drop.Some? {
        record.Fail(drop.value);
        OneChanged(name);
        return Some(Failed(drop.value));
      }
      OneChanged(name);
      if deleteMeta.Some? {
        return Some(Failed(deleteMeta.value));
      }
      stored := stored.(rows := stored.rows - {name});
      label Retired:
      indexes := indexes - {name};
      OneRemoved@Retired(name);
      assert old(View())[name := record.View()] - {name} == old(View()) - {name};
      err := None;
    }

    /** `Index` starts only on a Ready index. On success every item is counted once; where the vector store
        refuses a batch, those of the batches up to and including that one are. */
    method Index(name: string, items: seq<Item>, replies: seq<BatchReply>, inserts: seq<Option<string>>, count: int,
                 there: bool)
      returns (r: Option<IndexResult>, err: Option<IndexError>, sent: seq<VecItem>, done: nat)
      requires Valid() && |replies| == |inserts| == |Chunks(items, BATCH_SIZE)|
      modifies this`stored, indexes.Values
      ensures forall insert :: stored == StoredAfter(old(View()), old(stored), Operation.Index(name, insert, count), there)
      ensures Valid() && indexes == old(indexes)
      ensures r.None? <==> Refusal(old(View()), name).Some?
      ensures r.None? ==> View() == old(View()) && sent == [] && err == Refusal(View(), name)
      ensures r.Some? ==> WentThrough(Chunks(items, BATCH_SIZE), hasEmbedder, replies, inserts, done, sent)
                          && r.value.total == |items| && r.value.indexed == |sent|
      ensures r.Some? && err.None? ==> done == |replies| && r.value.indexed + r.value.failed == |items|
                                       && View() == Apply(old(View()), Operation.Index(name, None, count))
      ensures r.Some? && err.Some? ==> done < |replies| && inserts[done].Some? && err == Some(Failed(inserts[done].value))
                                       && r.value.indexed + r.value.failed == Min((done + 1) * BATCH_SIZE, |items|)
                                       && View() == Apply(old(View()), Operation.Index(name, inserts[done], count))
    {
      hide WentThrough, Refused, Sent, Chunks, Min, Indexed, Created, Updated, Rebuilt, View;
      ViewAt(name);
      if name !in indexes {
        return None, Some(NotFound), [], 0;
      }
      var record := indexes[name];
      if record.status != Ready {
        return None, Some(NotReady(record.status)), [], 0;
      }
      var result, insertErr;
      result, insertErr, sent, done := record.Fill(items, hasEmbedder, replies, inserts, count);
      stored := WithTable(stored, record.tableName, record.tableName in stored.tables || there);
      OneChanged(name);
      r := Some(result);
      err := if insertErr.Some? then Some(Failed(insertErr.value)) else None;
    }

    method RemoveVectors(name: string, store: set<string>, ids: seq<string>, failing: Failing, count: int)
      returns (removed: nat, left: set<string>, ok: bool)
      requires Valid()
      modifies indexes.Values
      ensures Valid() && indexes == old(indexes)
      ensures View() == Apply(old(View()), Operation.RemoveVectors(name, !ok, count))
      ensures ok <==> name in indexes && !Reached(store, ids, failing)
      ensures ok ==> left == Without(store, ids) && removed == |store| - |left|
      ensures name in indexes && !ok ==> StoppedAt(store, ids, failing, removed, left)
      ensures name !in indexes ==> removed == 0 && left == store
    {
      hide Reached, StoppedAt, Without, View;
      ViewAt(name);
      if name !in indexes {
        return 0, store, false;
      }
      var failed;
      removed, left, failed := RemoveAll(store, ids, failing);
      if failed {
        return removed, left, false;
      }
      indexes[name].vectorCount := count;
      OneChanged(name);
      ok := true;
    }

    method Rebuild(name: string, drop: Outcome, init: Outcome, there: bool) returns (r: Result<IndexResult, IndexError>)
      requires Valid()
      modifies this`stored, indexes.Values
      ensures stored == StoredAfter(old(View()), old(stored), Operation.Rebuild(name, drop, init), there)
      ensures Valid() && indexes == old(indexes)
      ensures View() == Apply(old(View()), Operation.Rebuild(name, drop, init))
      ensures name !in indexes ==> r == Err(NotFound)
      ensures name in indexes ==> r == match FailureOf(Then(drop, init))
                                       case None => Ok(IndexResult(0, 0, 0))
                                       case Some(e) => Err(e)
    {
      hide Rebuilt, Created, Updated, Indexed, View;
      ViewAt(name);
      if name !in indexes {
        return Err(NotFound);
      }
      indexes[name].Recreate(drop, init);
      stored := WithTable(stored, indexes[name].tableName, if drop.Some? then there else init.None? || there);
      OneChanged(name);
      r := if drop.Some? then Err(Failed(drop.value))
      else if init.Some? then Err(Failed(init.value))
      else Ok(IndexResult(0, 0, 0));
    }
  }
}
