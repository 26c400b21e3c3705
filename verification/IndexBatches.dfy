/**
 The work of `Index` in pkg/index/index.go: items go to the vector store in batches of a hundred, each with
 its own vector or with the one the embedder returned for its text. `own` vectors come first in a batch,
 then the embedded ones, so an item's place in the batch is not its place in what is inserted.
 */
module IndexBatches {
  import opened Chunking
  import opened EmbedTypes
  import opened Wrappers

  type Metadata = map<string, string>

  datatype Item = Item(id: string, text: string, vector: Embedding, metadata: Metadata)

  datatype VecItem = VecItem(id: string, vector: Embedding, metadata: Metadata)

  /** What `EmbedBatch` answers to a list of texts. */
  type BatchReply = Result<seq<Embedding>, string>

  /** One call of the progress function; the last one names no item. */
  datatype Report = Report(processed: nat, failed: nat, current: Option<string>)

  const BATCH_SIZE: nat := 100

  predicate ToEmbed(item: Item, hasEmbedder: bool) {
    item.vector.None? && hasEmbedder && item.text != ""
  }

  // ---------------------------------------------------------------- one batch

  /** The items of a batch that come with a vector. */
  function Own(batch: seq<Item>): seq<VecItem> {
    if batch == [] then [] else
      var item := batch[|batch| - 1];
      Own(batch[..|batch| - 1]) +
      if item.vector.Some? then [VecItem(item.id, item.vector, item.metadata)] else []
  }

  /** The items of a batch whose text goes to the embedder. */
  function Pending(batch: seq<Item>, hasEmbedder: bool): seq<Item> {
    if batch == [] then [] else
      var item := batch[|batch| - 1];
      Pending(batch[..|batch| - 1], hasEmbedder) + if ToEmbed(item, hasEmbedder) then [item] else []
  }

  /** The items of a batch that have neither a vector nor a way to get one. */
  function Skipped(batch: seq<Item>, hasEmbedder: bool): nat {
    if batch == [] then 0 else
      var item := batch[|batch| - 1];
      Skipped(batch[..|batch| - 1], hasEmbedder) +
      if item.vector.None? && !ToEmbed(item, hasEmbedder) then 1 else 0
  }

  function Paired(pending: seq<Item>, vectors: seq<Embedding>): seq<VecItem>
    requires |pending| == |vectors|
  {
    seq(|pending|, k requires 0 <= k < |pending| => VecItem(pending[k].id, vectors[k], pending[k].metadata))
  }

  /** The embedder answered, with one vector per text. */
  predicate Answered(batch: seq<Item>, hasEmbedder: bool, reply: BatchReply) {
    reply.Ok? && |reply.value| == |Pending(batch, hasEmbedder)|
  }

  /** What a batch sends to the vector store. */
  function BatchItems(batch: seq<Item>, hasEmbedder: bool, reply: BatchReply): seq<VecItem> {
    Own(batch) +
    if Answered(batch, hasEmbedder, reply) then Paired(Pending(batch, hasEmbedder), reply.value) else []
  }

  /** Where the items whose text goes to the embedder are in a batch. */
  function Offsets(batch: seq<Item>, hasEmbedder: bool): (r: seq<nat>)
    ensures |r| == |Pending(batch, hasEmbedder)|
  {
    if batch == [] then [] else
      var n := |batch| - 1;
      Offsets(batch[..n], hasEmbedder) + if ToEmbed(batch[n], hasEmbedder) then [n] else []
  }

  /** What a batch should send to the vector store, item by item in the order of the batch. An item waiting
      for its embedding gets the answer to its own text, which is the one after those of the items that
      wait before it. */
  function Reference(batch: seq<Item>, hasEmbedder: bool, reply: BatchReply, n: nat): seq<VecItem>
    requires n <= |batch|
  {
    if n == 0 then [] else
      var item := batch[n - 1];
      var rank := |Pending(batch[..n - 1], hasEmbedder)|;
      Reference(batch, hasEmbedder, reply, n - 1) +
      if item.vector.Some? then [VecItem(item.id, item.vector, item.metadata)]
      else if hasEmbedder && item.text != "" && Answered(batch, hasEmbedder, reply) && rank < |reply.value| then
        [VecItem(item.id, reply.value[rank], item.metadata)]
      else []
  }

  /** The rank used above is right: the text sent to the embedder at that rank is the item's. */
  lemma {:induction false} TextAtRank(batch: seq<Item>, hasEmbedder: bool, j: nat)
    requires j < |batch| && ToEmbed(batch[j], hasEmbedder)
    ensures var rank := |Pending(batch[..j], hasEmbedder)|;
            rank < |Pending(batch, hasEmbedder)| && Pending(batch, hasEmbedder)[rank] == batch[j]
  {
    var init := batch[..|batch| - 1];
    if j < |batch| - 1 {
      TextAtRank(init, hasEmbedder, j);
      assert init[..j] == batch[..j];
    } else {
      assert init == batch[..j];
    }
  }

  lemma {:induction false} PendingGrows(batch: seq<Item>, hasEmbedder: bool, n: nat)
    requires n <= |batch|
    ensures Pending(batch[..n], hasEmbedder) <= Pending(batch, hasEmbedder)
    decreases |batch|
  {
    if n < |batch| {
      var init := batch[..|batch| - 1];
      PendingGrows(init, hasEmbedder, n);
      assert init[..n] == batch[..n];
    } else {
      assert batch[..n] == batch;
    }
  }

  /** What the first `n` items of a batch send, if the batch is answered as it is. */
  function PrefixItems(batch: seq<Item>, hasEmbedder: bool, reply: BatchReply, n: nat): seq<VecItem>
    requires n <= |batch| && |Pending(batch[..n], hasEmbedder)| <= |Pending(batch, hasEmbedder)|
  {
    var pending := Pending(batch[..n], hasEmbedder);
    Own(batch[..n]) +
    if Answered(batch, hasEmbedder, reply) then Paired(pending, reply.value[..|pending|]) else []
  }

  lemma {:induction false} ReferencePrefix(batch: seq<Item>, hasEmbedder: bool, reply: BatchReply, n: nat)
    requires n <= |batch|
    ensures |Pending(batch[..n], hasEmbedder)| <= |Pending(batch, hasEmbedder)|
    ensures multiset(Reference(batch, hasEmbedder, reply, n)) == multiset(PrefixItems(batch, hasEmbedder, reply, n))
  {
    PendingGrows(batch, hasEmbedder, n);
    if n > 0 {
      ReferencePrefix(batch, hasEmbedder, reply, n - 1);
      PrefixStep(batch, hasEmbedder, reply, n);
    }
  }

  lemma PrefixStep(batch: seq<Item>, hasEmbedder: bool, reply: BatchReply, n: nat)
    requires 0 < n <= |batch| && Pending(batch[..n], hasEmbedder) <= Pending(batch, hasEmbedder)
    requires |Pending(batch[..n - 1], hasEmbedder)| <= |Pending(batch, hasEmbedder)|
    requires multiset(Reference(batch, hasEmbedder, reply, n - 1)) ==
             multiset(PrefixItems(batch, hasEmbedder, reply, n - 1))
    ensures multiset(Reference(batch, hasEmbedder, reply, n)) == multiset(PrefixItems(batch, hasEmbedder, reply, n))
  {
    hide Own, Pending, Answered, Paired, Reference, PrefixItems;
    assert batch[..n][..n - 1] == batch[..n - 1];
    if batch[n - 1].vector.Some? {
      OwnStep(batch, hasEmbedder, reply, n);
    } else if ToEmbed(batch[n - 1], hasEmbedder) && Answered(batch, hasEmbedder, reply) {
      PendingStep(batch, hasEmbedder, reply, n);
    } else {
      SkipStep(batch, hasEmbedder, reply, n);
    }
  }

  lemma SkipStep(batch: seq<Item>, hasEmbedder: bool, reply: BatchReply, n: nat)
    requires 0 < n <= |batch| && batch[..n][..n - 1] == batch[..n - 1] && batch[n - 1].vector.None?
    requires !ToEmbed(batch[n - 1], hasEmbedder) || !Answered(batch, hasEmbedder, reply)
    requires |Pending(batch[..n], hasEmbedder)| <= |Pending(batch, hasEmbedder)|
    requires |Pending(batch[..n - 1], hasEmbedder)| <= |Pending(batch, hasEmbedder)|
    ensures Reference(batch, hasEmbedder, reply, n) == Reference(batch, hasEmbedder, reply, n - 1)
    ensures PrefixItems(batch, hasEmbedder, reply, n) == PrefixItems(batch, hasEmbedder, reply, n - 1)
  {
    assert Own(batch[..n]) == Own(batch[..n - 1]);
    assert Answered(batch, hasEmbedder, reply) ==>
        Pending(batch[..n], hasEmbedder) == Pending(batch[..n - 1], hasEmbedder);
    assert Reference(batch, hasEmbedder, reply, n) == Reference(batch, hasEmbedder, reply, n - 1);
    hide Own, Pending, Answered, Paired, Reference;
  }

  lemma PendingStep(batch: seq<Item>, hasEmbedder: bool, reply: BatchReply, n: nat)
    requires 0 < n <= |batch| && batch[..n][..n - 1] == batch[..n - 1]
    requires ToEmbed(batch[n - 1], hasEmbedder) && Answered(batch, hasEmbedder, reply)
    requires |Pending(batch[..n], hasEmbedder)| <= |Pending(batch, hasEmbedder)|
    requires |Pending(batch[..n - 1], hasEmbedder)| <= |Pending(batch, hasEmbedder)|
    ensures |Pending(batch[..n - 1], hasEmbedder)| < |reply.value|
    ensures var rank := |Pending(batch[..n - 1], hasEmbedder)|;
            var x := VecItem(batch[n - 1].id, reply.value[rank], batch[n - 1].metadata);
            && Reference(batch, hasEmbedder, reply, n) == Reference(batch, hasEmbedder, reply, n - 1) + [x]
            && PrefixItems(batch, hasEmbedder, reply, n) == PrefixItems(batch, hasEmbedder, reply, n - 1) + [x]
  {
    var before, vectors := Pending(batch[..n - 1], hasEmbedder), reply.value;
    var pending := before + [batch[n - 1]];
    PendingMore(batch, hasEmbedder, n);
    var x := VecItem(batch[n - 1].id, vectors[|before|], batch[n - 1].metadata);
    assert Reference(batch, hasEmbedder, reply, n) == Reference(batch, hasEmbedder, reply, n - 1) + [x] by {
      hide Pending, Own, Paired, PrefixItems;
    }
    hide Own, Pending, Reference;
    PairedMore(before, batch[n - 1], vectors);
    assert PrefixItems(batch, hasEmbedder, reply, n) == PrefixItems(batch, hasEmbedder, reply, n - 1) + [x];
  }

  lemma PendingMore(batch: seq<Item>, hasEmbedder: bool, n: nat)
    requires 0 < n <= |batch| && batch[..n][..n - 1] == batch[..n - 1] && ToEmbed(batch[n - 1], hasEmbedder)
    ensures Pending(batch[..n], hasEmbedder) == Pending(batch[..n - 1], hasEmbedder) + [batch[n - 1]]
    ensures Own(batch[..n]) == Own(batch[..n - 1])
  {
  }

  lemma PairedMore(before: seq<Item>, item: Item, vectors: seq<Embedding>)
    requires |before| < |vectors|
    ensures var n := |before|;
            Paired(before + [item], vectors[..n + 1]) ==
            Paired(before, vectors[..n]) + [VecItem(item.id, vectors[n], item.metadata)]
  {
  }

  lemma OneInside<T>(a: seq<T>, x: T, b: seq<T>)
    ensures multiset(a + [x] + b) == multiset(a + b + [x])
  {
  }

  lemma OwnStep(batch: seq<Item>, hasEmbedder: bool, reply: BatchReply, n: nat)
    requires 0 < n <= |batch| && batch[n - 1].vector.Some? && batch[..n][..n - 1] == batch[..n - 1]
    requires |Pending(batch[..n], hasEmbedder)| <= |Pending(batch, hasEmbedder)|
    requires |Pending(batch[..n - 1], hasEmbedder)| <= |Pending(batch, hasEmbedder)|
    ensures var x := VecItem(batch[n - 1].id, batch[n - 1].vector, batch[n - 1].metadata);
            && Reference(batch, hasEmbedder, reply, n) == Reference(batch, hasEmbedder, reply, n - 1) + [x]
            && multiset(PrefixItems(batch, hasEmbedder, reply, n)) ==
               multiset(PrefixItems(batch, hasEmbedder, reply, n - 1) + [x])
  {
    var x := VecItem(batch[n - 1].id, batch[n - 1].vector, batch[n - 1].metadata);
    var pending := Pending(batch[..n - 1], hasEmbedder);
    assert Own(batch[..n]) == Own(batch[..n - 1]) + [x];
    assert Pending(batch[..n], hasEmbedder) == pending;
    assert Reference(batch, hasEmbedder, reply, n) == Reference(batch, hasEmbedder, reply, n - 1) + [x];
    hide Own, Reference, Paired;
    var pairs := if Answered(batch, hasEmbedder, reply) then Paired(pending, reply.value[..|pending|]) else [];
    hide Answered, Pending;
    assert PrefixItems(batch, hasEmbedder, reply, n) == Own(batch[..n - 1]) + [x] + pairs;
    assert PrefixItems(batch, hasEmbedder, reply, n - 1) == Own(batch[..n - 1]) + pairs;
    hide PrefixItems;
    OneInside(Own(batch[..n - 1]), x, pairs);
  }

  /** What a batch sends is, up to order, what it should send: every item that has a vector or was answered,
      once, each joined to its own vector or to the answer to its own text. */
  lemma BatchSendsReference(batch: seq<Item>, hasEmbedder: bool, reply: BatchReply)
    ensures multiset(BatchItems(batch, hasEmbedder, reply)) ==
            multiset(Reference(batch, hasEmbedder, reply, |batch|))
  {
    ReferencePrefix(batch, hasEmbedder, reply, |batch|);
    assert batch[..|batch|] == batch;
    if Answered(batch, hasEmbedder, reply) {
      assert reply.value[..|reply.value|] == reply.value;
    }
  }

  lemma {:induction false} BatchSplits(batch: seq<Item>, hasEmbedder: bool)
    ensures |Own(batch)| + |Pending(batch, hasEmbedder)| + Skipped(batch, hasEmbedder) == |batch|
  {
    if batch != [] {
      BatchSplits(batch[..|batch| - 1], hasEmbedder);
    }
  }

  /** The lists of the items that wait among the first `n`: where they are, and their texts. */
  predicate Tracks(batch: seq<Item>, n: nat, offsets: seq<nat>, pending: seq<Item>, texts: seq<string>) {
    && n <= |batch| && |texts| == |offsets| == |pending|
    && (forall k :: 0 <= k < |pending| ==> texts[k] == pending[k].text)
    && (forall k :: 0 <= k < |pending| ==> offsets[k] < n && batch[offsets[k]] == pending[k])
    && (forall k, l :: 0 <= k < l < |pending| ==> offsets[k] < offsets[l])
  }

  lemma TracksMore(batch: seq<Item>, n: nat, offsets: seq<nat>, pending: seq<Item>, texts: seq<string>)
    requires n < |batch| && Tracks(batch, n, offsets, pending, texts)
    ensures Tracks(batch, n + 1, offsets, pending, texts)
    ensures Tracks(batch, n + 1, offsets + [n], pending + [batch[n]], texts + [batch[n].text])
  {
  }

  /** The first loop over a batch. */
  method SortBatch(batch: seq<Item>, hasEmbedder: bool)
    returns (vecItems: seq<VecItem>, offsets: seq<nat>, pending: seq<Item>, texts: seq<string>, skipped: nat)
    ensures vecItems == Own(batch) && skipped == Skipped(batch, hasEmbedder)
    ensures offsets == Offsets(batch, hasEmbedder)
    ensures pending == Pending(batch, hasEmbedder) && Tracks(batch, |batch|, offsets, pending, texts)
  {
    vecItems, offsets, pending, texts, skipped := [], [], [], [], 0;
    for offset := 0 to |batch|
      invariant vecItems == Own(batch[..offset]) && skipped == Skipped(batch[..offset], hasEmbedder)
      invariant offsets == Offsets(batch[..offset], hasEmbedder)
      invariant pending == Pending(batch[..offset], hasEmbedder) && Tracks(batch, offset, offsets, pending, texts)
    {
      hide Tracks;
      TracksMore(batch, offset, offsets, pending, texts);
      assert batch[..offset + 1][..offset] == batch[..offset];
      var item := batch[offset];
      if item.vector.Some? {
        vecItems := vecItems + [VecItem(item.id, item.vector, item.metadata)];
        continue;
      }
      if !hasEmbedder || item.text == "" {
        skipped := skipped + 1;
        continue;
      }
      offsets := offsets + [offset];
      pending := pending + [item];
      texts := texts + [item.text];
    }
    assert batch[..|batch|] == batch;
  }

  // ---------------------------------------------------------------- all batches

  /** What the first `n` batches send to the vector store. */
  function Sent(batches: seq<seq<Item>>, hasEmbedder: bool, replies: seq<BatchReply>, n: nat): seq<VecItem>
    requires n <= |batches| == |replies|
  {
    if n == 0 then [] else
      Sent(batches, hasEmbedder, replies, n - 1) + BatchItems(batches[n - 1], hasEmbedder, replies[n - 1])
  }

  function ReferenceAll(batches: seq<seq<Item>>, hasEmbedder: bool, replies: seq<BatchReply>, n: nat): seq<VecItem>
    requires n <= |batches| == |replies|
  {
    if n == 0 then [] else
      var batch := batches[n - 1];
      ReferenceAll(batches, hasEmbedder, replies, n - 1) + Reference(batch, hasEmbedder, replies[n - 1], |batch|)
  }

  /** Over any number of batches, what is sent is the items' own vectors and own embeddings. */
  lemma {:induction false} SentIsReference(batches: seq<seq<Item>>, hasEmbedder: bool, replies: seq<BatchReply>, n: nat)
    requires n <= |batches| == |replies|
    ensures multiset(Sent(batches, hasEmbedder, replies, n)) == multiset(ReferenceAll(batches, hasEmbedder, replies, n))
  {
    hide BatchItems, Reference;
    if n > 0 {
      SentIsReference(batches, hasEmbedder, replies, n - 1);
      BatchSendsReference(batches[n - 1], hasEmbedder, replies[n - 1]);
    }
  }

  /** The vector store refuses what batch `b` sends. */
  predicate Refused(batches: seq<seq<Item>>, hasEmbedder: bool, replies: seq<BatchReply>, inserts: seq<Option<string>>, b: nat)
    requires b < |batches| == |replies| == |inserts|
  {
    inserts[b].Some? && BatchItems(batches[b], hasEmbedder, replies[b]) != []
  }

  /** The reports only move forward, and each names the item it has come to. */
  predicate Forward(items: seq<Item>, reports: seq<Report>, processed: nat, failed: nat) {
    && (forall k, l :: 0 <= k < l < |reports| ==>
          reports[k].processed <= reports[l].processed && reports[k].failed <= reports[l].failed)
    && (forall k :: 0 <= k < |reports| ==> reports[k].processed <= processed <= |items| && reports[k].failed <= failed)
    && (forall k :: 0 <= k < |reports| && reports[k].current.Some? ==>
          0 < reports[k].processed && reports[k].current == Some(items[reports[k].processed - 1].id))
  }

  lemma ReportMore(items: seq<Item>, reports: seq<Report>, processed: nat, failed: nat, report: Report)
    requires Forward(items, reports, processed, failed) && processed <= |items|
    requires report.processed == processed && report.failed == failed
    requires report.current.Some? ==> processed > 0 && report.current == Some(items[processed - 1].id)
    ensures Forward(items, reports + [report], processed, failed)
  {
  }

  /** One report for each item that waited in vain, with the place it has in all items and the failures so far. */
  function Losses(start: nat, offsets: seq<nat>, pending: seq<Item>, failed: nat): (r: seq<Report>)
    requires |offsets| == |pending|
    ensures |r| == |pending|
  {
    seq(|pending|, k requires 0 <= k < |pending| => Report(start + offsets[k] + 1, failed + k + 1, Some(pending[k].id)))
  }

  /** How many items of a batch fail before the insertion. */
  function Lost(batch: seq<Item>, hasEmbedder: bool, reply: BatchReply): nat {
    Skipped(batch, hasEmbedder) + if Answered(batch, hasEmbedder, reply) then 0 else |Pending(batch, hasEmbedder)|
  }

  /** The reports of a batch before the insertion. */
  function LossReports(batch: seq<Item>, hasEmbedder: bool, reply: BatchReply, start: nat, failed: nat): seq<Report> {
    if Answered(batch, hasEmbedder, reply) then []
    else Losses(start, Offsets(batch, hasEmbedder), Pending(batch, hasEmbedder), failed + Skipped(batch, hasEmbedder))
  }

  /** The report after the insertion: the last item of the batch has been processed. */
  function BatchReport(batch: seq<Item>, start: nat, failed: nat): Report {
    Report(start + |batch|, failed, if batch == [] then None else Some(batch[|batch| - 1].id))
  }

  function LostIn(batches: seq<seq<Item>>, hasEmbedder: bool, replies: seq<BatchReply>, n: nat): nat
    requires n <= |batches| == |replies|
  {
    if n == 0 then 0 else LostIn(batches, hasEmbedder, replies, n - 1) + Lost(batches[n - 1], hasEmbedder, replies[n - 1])
  }

  /** All reports of the first `n` batches. */
  function ReportsOf(batches: seq<seq<Item>>, hasEmbedder: bool, replies: seq<BatchReply>, n: nat): seq<Report>
    requires n <= |batches| == |replies|
  {
    if n == 0 then [] else
      var batch, start := batches[n - 1], (n - 1) * BATCH_SIZE;
      ReportsOf(batches, hasEmbedder, replies, n - 1) +
      LossReports(batch, hasEmbedder, replies[n - 1], start, LostIn(batches, hasEmbedder, replies, n - 1)) +
      [BatchReport(batch, start, LostIn(batches, hasEmbedder, replies, n))]
  }

  predicate BatchIs(batches: seq<seq<Item>>, items: seq<Item>, b: nat, lo: nat, hi: nat) {
    && b < |batches| && lo < hi <= |items| && batches[b] == items[lo..hi]
    && (b + 1 == |batches| <==> |items| <= lo + BATCH_SIZE)
  }

  /** Batch `b` starts after `b` full batches. */
  predicate BatchAt(batches: seq<seq<Item>>, items: seq<Item>, b: nat) {
    && BatchIs(batches, items, b, b * BATCH_SIZE, Min((b + 1) * BATCH_SIZE, |items|))
    && (b + 1 == |batches| <==> |items| <= (b + 1) * BATCH_SIZE)
  }

  predicate AreBatches(batches: seq<seq<Item>>, items: seq<Item>) {
    (batches == [] <==> items == []) && forall b: nat :: b < |batches| ==> BatchAt(batches, items, b)
  }

  lemma TakeBatch(batches: seq<seq<Item>>, items: seq<Item>, b: nat)
    requires AreBatches(batches, items) && b < |batches|
    ensures BatchIs(batches, items, b, b * BATCH_SIZE, Min((b + 1) * BATCH_SIZE, |items|))
    ensures b + 1 == |batches| <==> |items| <= (b + 1) * BATCH_SIZE
  {
    assert BatchAt(batches, items, b);
  }

  lemma ChunksAreBatches(items: seq<Item>)
    ensures AreBatches(Chunks(items, BATCH_SIZE), items)
  {
    var batches := Chunks(items, BATCH_SIZE);
    forall b: nat | b < |batches|
      ensures BatchAt(batches, items, b)
    {
      ChunkIsSlice(items, BATCH_SIZE, b);
      OffsetIsProduct(b, BATCH_SIZE);
    }
  }

  /** The waiting items of a batch, where they are among all items. */
  predicate Placed(items: seq<Item>, start: nat, offsets: seq<nat>, pending: seq<Item>) {
    && |offsets| == |pending|
    && (forall k :: 0 <= k < |pending| ==> start + offsets[k] < |items| && items[start + offsets[k]] == pending[k])
    && (forall k, l :: 0 <= k < l < |pending| ==> offsets[k] < offsets[l])
  }

  /** One report more: it comes after the others, and names the item that it has come to. */
  lemma LossesForward(items: seq<Item>, reports: seq<Report>, start: nat, offsets: seq<nat>, pending: seq<Item>, failed: nat,
                      n: nat)
    requires |offsets| == |pending| && Placed(items, start, offsets, pending) && n <= |pending|
    requires Forward(items, reports, start, failed)
    ensures Forward(items, reports + Losses(start, offsets, pending, failed)[..n],
                    if n == 0 then start else start + offsets[n - 1] + 1, failed + n)
  {
    hide Forward, Losses, Placed;
    if n == 0 {
      assert reports + Losses(start, offsets, pending, failed)[..0] == reports;
    } else {
      LossesForward(items, reports, start, offsets, pending, failed, n - 1);
      OneLossMore(items, start, offsets, pending, failed, n);
      var losses := Losses(start, offsets, pending, failed);
      ForwardOn(items, reports + losses[..n - 1], if n == 1 then start else start + offsets[n - 2] + 1, failed + n - 1,
                losses[n - 1]);
      assert reports + losses[..n] == reports + losses[..n - 1] + [losses[n - 1]];
    }
  }

  lemma OneLossMore(items: seq<Item>, start: nat, offsets: seq<nat>, pending: seq<Item>, failed: nat, n: nat)
    requires Placed(items, start, offsets, pending) && 0 < n <= |pending|
    ensures var losses := Losses(start, offsets, pending, failed);
            && losses[..n] == losses[..n - 1] + [losses[n - 1]]
            && losses[n - 1] == Report(start + offsets[n - 1] + 1, failed + n, Some(items[start + offsets[n - 1]].id))
            && start + offsets[n - 1] < |items|
    ensures n > 1 ==> offsets[n - 2] < offsets[n - 1]
  {
  }

  lemma ForwardOn(items: seq<Item>, reports: seq<Report>, processed: nat, failed: nat, report: Report)
    requires Forward(items, reports, processed, failed) && processed <= report.processed <= |items| && failed <= report.failed
    requires report.current.Some? ==> report.processed > 0 && report.current == Some(items[report.processed - 1].id)
    ensures Forward(items, reports + [report], report.processed, report.failed)
  {
  }

  /** The loop that counts the items of a batch as failed when the embedder did not answer. */
  method ReportUnembedded(start: nat, offsets: seq<nat>, pending: seq<Item>, failed: nat, reports: seq<Report>)
    returns (failed': nat, reports': seq<Report>)
    requires |offsets| == |pending|
    ensures failed' == failed + |pending| && reports' == reports + Losses(start, offsets, pending, failed)
  {
    failed', reports' := failed, reports;
    for k := 0 to |pending|
      invariant failed' == failed + k && reports' == reports + Losses(start, offsets, pending, failed)[..k]
    {
      failed' := failed' + 1;
      reports' := reports' + [Report(start + offsets[k] + 1, failed', Some(pending[k].id))];
    }
  }

  lemma TracksPlaced(items: seq<Item>, start: nat, end: nat, offsets: seq<nat>, pending: seq<Item>, texts: seq<string>)
    requires start <= end <= |items| && Tracks(items[start..end], end - start, offsets, pending, texts)
    ensures |texts| == |offsets| == |pending| && Placed(items, start, offsets, pending)
    ensures pending != [] ==> start + offsets[|pending| - 1] + 1 <= end
  {
  }

  lemma ForwardUpTo(items: seq<Item>, reports: seq<Report>, processed: nat, failed: nat, end: nat, more: nat)
    requires Forward(items, reports, processed, failed) && processed <= end <= |items| && failed <= more
    ensures Forward(items, reports, end, more)
  {
  }

  /** The reports of a batch follow those before it, whether its waiting items were answered or not. */
  lemma BatchForward(items: seq<Item>, reports: seq<Report>, start: nat, end: nat, failed: nat, skipped: nat,
                     offsets: seq<nat>, pending: seq<Item>, texts: seq<string>)
    requires Forward(items, reports, start, failed) && start <= end <= |items|
    requires Tracks(items[start..end], end - start, offsets, pending, texts)
    ensures |texts| == |offsets| == |pending|
    ensures Forward(items, reports, end, failed + skipped)
    ensures Forward(items, reports + Losses(start, offsets, pending, failed + skipped), end, failed + skipped + |pending|)
  {
    hide Forward, Losses, Placed, Tracks;
    TracksPlaced(items, start, end, offsets, pending, texts);
    ForwardUpTo(items, reports, start, failed, start, failed + skipped);
    ForwardUpTo(items, reports, start, failed, end, failed + skipped);
    var n, losses := |pending|, Losses(start, offsets, pending, failed + skipped);
    LossesForward(items, reports, start, offsets, pending, failed + skipped, n);
    assert losses[..n] == losses;
    ForwardUpTo(items, reports + losses, if n == 0 then start else start + offsets[n - 1] + 1, failed + skipped + n, end,
                failed + skipped + n);
  }

  /** One batch up to the insertion: what it sends, and the items that failed already. */
  method EmbedBatchItems(items: seq<Item>, start: nat, end: nat, hasEmbedder: bool, reply: BatchReply,
                         failed: nat, reports: seq<Report>)
    returns (vecItems: seq<VecItem>, failed': nat, reports': seq<Report>)
    requires start <= end <= |items| && Forward(items, reports, start, failed)
    ensures vecItems == BatchItems(items[start..end], hasEmbedder, reply)
    ensures failed' + |vecItems| == failed + (end - start) && failed' == failed + Lost(items[start..end], hasEmbedder, reply)
    ensures reports' == reports + LossReports(items[start..end], hasEmbedder, reply, start, failed)
    ensures Forward(items, reports', end, failed')
  {
    hide Own, Pending, Skipped, Offsets, Forward, Placed, Tracks, Losses;
    var batch := items[start..end];
    BatchSplits(batch, hasEmbedder);
    var offsets, pending, texts, skipped;
    vecItems, offsets, pending, texts, skipped := SortBatch(batch, hasEmbedder);
    BatchForward(items, reports, start, end, failed, skipped, offsets, pending, texts);
    failed', reports' := failed + skipped, reports;
    if |texts| > 0 {
      if reply.Err? || |reply.value| != |pending| {
        failed', reports' := ReportUnembedded(start, offsets, pending, failed', reports);
      } else {
        vecItems := vecItems + Paired(pending, reply.value);
      }
    }
  }

  /** The first `done` batches went through, and `sent` is what they sent. */
  predicate WentThrough(batches: seq<seq<Item>>, hasEmbedder: bool, replies: seq<BatchReply>,
                        inserts: seq<Option<string>>, done: nat, sent: seq<VecItem>)
    requires |batches| == |replies| == |inserts|
  {
    && done <= |batches|
    && (forall b :: 0 <= b < done ==> !Refused(batches, hasEmbedder, replies, inserts, b))
    && sent == Sent(batches, hasEmbedder, replies, done)
  }

  predicate Reported(batches: seq<seq<Item>>, hasEmbedder: bool, replies: seq<BatchReply>, done: nat,
                     reports: seq<Report>, failed: nat)
    requires |batches| == |replies|
  {
    && done <= |batches| && failed == LostIn(batches, hasEmbedder, replies, done)
    && reports == ReportsOf(batches, hasEmbedder, replies, done)
  }

  lemma OneMoreReported(batches: seq<seq<Item>>, hasEmbedder: bool, replies: seq<BatchReply>, done: nat,
                        reports: seq<Report>, failed: nat, after: seq<Report>, more: nat)
    requires |batches| == |replies| && Reported(batches, hasEmbedder, replies, done, reports, failed) && done < |batches|
    requires more == failed + Lost(batches[done], hasEmbedder, replies[done])
    requires after == reports + LossReports(batches[done], hasEmbedder, replies[done], done * BATCH_SIZE, failed) +
                      [BatchReport(batches[done], done * BATCH_SIZE, more)]
    ensures Reported(batches, hasEmbedder, replies, done + 1, after, more)
  {
    hide Lost, LossReports, BatchReport;
  }

  /** The reports of the batches that went through; then the final one or, where a batch was refused, those of
      its items that had failed before. */
  predicate AllReported(batches: seq<seq<Item>>, hasEmbedder: bool, replies: seq<BatchReply>, done: nat,
                        reports: seq<Report>, err: Option<string>, failed: nat, total: nat)
    requires |batches| == |replies|
  {
    && done <= |batches|
    && if err.None? then
         && failed == LostIn(batches, hasEmbedder, replies, done)
         && reports == ReportsOf(batches, hasEmbedder, replies, done) + [Report(total, failed, None)]
       else
         && done < |batches|
         && reports == ReportsOf(batches, hasEmbedder, replies, done) +
                       LossReports(batches[done], hasEmbedder, replies[done], done * BATCH_SIZE,
                                   LostIn(batches, hasEmbedder, replies, done))
  }

  lemma StoppedReports(batches: seq<seq<Item>>, hasEmbedder: bool, replies: seq<BatchReply>, done: nat, before: seq<Report>,
                       lost: nat, reports: seq<Report>, err: Option<string>, failed: nat, total: nat)
    requires |batches| == |replies| && Reported(batches, hasEmbedder, replies, done, before, lost)
    requires err.Some? && done < |batches|
    requires reports == before + LossReports(batches[done], hasEmbedder, replies[done], done * BATCH_SIZE, lost)
    ensures AllReported(batches, hasEmbedder, replies, done, reports, err, failed, total)
  {
    hide LossReports, LostIn, ReportsOf;
  }

  lemma FinalReport(batches: seq<seq<Item>>, hasEmbedder: bool, replies: seq<BatchReply>, done: nat,
                    reports: seq<Report>, failed: nat, total: nat)
    requires |batches| == |replies| && Reported(batches, hasEmbedder, replies, done, reports, failed)
    ensures AllReported(batches, hasEmbedder, replies, done, reports + [Report(total, failed, None)], None, failed, total)
  {
    hide LossReports, LostIn, ReportsOf;
  }

  /** The first `done` batches went through: `sent` is what they sent, and every other item of them failed. */
  predicate Through(items: seq<Item>, batches: seq<seq<Item>>, hasEmbedder: bool, replies: seq<BatchReply>,
                    inserts: seq<Option<string>>, done: nat, sent: seq<VecItem>, failed: nat, reports: seq<Report>)
    requires |replies| == |inserts| == |batches|
  {
    var end := Min(done * BATCH_SIZE, |items|);
    && WentThrough(batches, hasEmbedder, replies, inserts, done, sent) && |sent| + failed == end
    && Forward(items, reports, end, failed) && Reported(batches, hasEmbedder, replies, done, reports, failed)
  }

  /** How the loop ends: after all batches, or at one that the vector store refuses, whose items all failed. */
  predicate Ended(items: seq<Item>, batches: seq<seq<Item>>, hasEmbedder: bool, replies: seq<BatchReply>,
                  inserts: seq<Option<string>>, done: nat, sent: seq<VecItem>, failed: nat, reports: seq<Report>,
                  err: Option<string>, end: nat)
    requires |replies| == |inserts| == |batches|
  {
    && WentThrough(batches, hasEmbedder, replies, inserts, done, sent) && |sent| + failed == end
    && Forward(items, reports, end, failed)
    && AllReported(batches, hasEmbedder, replies, done, reports, err, failed, |items|)
    && if err.None? then done == |batches| && end == |items|
       else done < |batches| && err == inserts[done] && end == Min((done + 1) * BATCH_SIZE, |items|)
            && Refused(batches, hasEmbedder, replies, inserts, done)
  }

  lemma NothingYet(items: seq<Item>, batches: seq<seq<Item>>, hasEmbedder: bool, replies: seq<BatchReply>,
                   inserts: seq<Option<string>>)
    requires |replies| == |inserts| == |batches| && AreBatches(batches, items)
    ensures batches == [] <==> items == []
    ensures Through(items, batches, hasEmbedder, replies, inserts, 0, [], 0, [])
  {
  }

  lemma AllDone(items: seq<Item>, batches: seq<seq<Item>>, hasEmbedder: bool, replies: seq<BatchReply>,
                inserts: seq<Option<string>>, sent: seq<VecItem>, failed: nat, reports: seq<Report>)
    requires |replies| == |inserts| == |batches| && |items| <= |batches| * BATCH_SIZE
    requires Through(items, batches, hasEmbedder, replies, inserts, |batches|, sent, failed, reports)
    ensures Ended(items, batches, hasEmbedder, replies, inserts, |batches|, sent, failed,
                  reports + [Report(|items|, failed, None)], None, |items|)
  {
    hide WentThrough, Forward, Reported, AllReported;
    ReportMore(items, reports, |items|, failed, Report(|items|, failed, None));
    FinalReport(batches, hasEmbedder, replies, |batches|, reports, failed, |items|);
  }

  /** One turn of the loop: what was sent, or the vector store's error. */
  method IndexBatch(items: seq<Item>, ghost batches: seq<seq<Item>>, start: nat, end: nat, hasEmbedder: bool,
                    replies: seq<BatchReply>, inserts: seq<Option<string>>, b: nat, ghost sent: seq<VecItem>,
                    failed: nat, reports: seq<Report>)
    returns (vecItems: seq<VecItem>, failed': nat, err: Option<string>, reports': seq<Report>)
    requires |batches| == |replies| == |inserts| && AreBatches(batches, items) && b < |batches|
    requires start == b * BATCH_SIZE && end == Min(start + BATCH_SIZE, |items|)
    requires Through(items, batches, hasEmbedder, replies, inserts, b, sent, failed, reports)
    ensures err.None? ==>
              Through(items, batches, hasEmbedder, replies, inserts, b + 1, sent + vecItems, failed', reports')
    ensures err.Some? ==>
              Ended(items, batches, hasEmbedder, replies, inserts, b, sent, failed', reports', err, end)
  {
    hide BatchItems, Forward, LossReports, BatchReport, Lost, Reported, AllReported, WentThrough, AreBatches;
    TakeBatch(batches, items, b);
    vecItems, failed', reports' := EmbedBatchItems(items, start, end, hasEmbedder, replies[b], failed, reports);
    if |vecItems| > 0 && inserts[b].Some? {
      ForwardUpTo(items, reports', end, failed', end, failed' + |vecItems|);
      StoppedReports(batches, hasEmbedder, replies, b, reports, failed, reports', inserts[b], failed' + |vecItems|, |items|);
      return vecItems, failed' + |vecItems|, inserts[b], reports';
    }
    err := None;
    ghost var before := reports';
    reports' := reports' + [Report(end, failed', Some(items[end - 1].id))];
    OneMoreWent(batches, hasEmbedder, replies, inserts, b, sent, vecItems);
    LastReport(items, batches, hasEmbedder, replies, b, reports, failed, before, failed', reports');
  }

  lemma LastReport(items: seq<Item>, batches: seq<seq<Item>>, hasEmbedder: bool, replies: seq<BatchReply>, b: nat,
                   reports: seq<Report>, failed: nat, before: seq<Report>, more: nat, after: seq<Report>)
    requires |batches| == |replies| && b < |batches| && Reported(batches, hasEmbedder, replies, b, reports, failed)
    requires BatchIs(batches, items, b, b * BATCH_SIZE, Min((b + 1) * BATCH_SIZE, |items|))
    requires before == reports + LossReports(batches[b], hasEmbedder, replies[b], b * BATCH_SIZE, failed)
    requires more == failed + Lost(batches[b], hasEmbedder, replies[b])
    requires Forward(items, before, Min((b + 1) * BATCH_SIZE, |items|), more)
    requires var end := Min((b + 1) * BATCH_SIZE, |items|); after == before + [Report(end, more, Some(items[end - 1].id))]
    ensures Forward(items, after, Min((b + 1) * BATCH_SIZE, |items|), more)
    ensures Reported(batches, hasEmbedder, replies, b + 1, after, more)
  {
    hide Forward, LossReports, Lost, Reported;
    var end := Min((b + 1) * BATCH_SIZE, |items|);
    ReportMore(items, before, end, more, Report(end, more, Some(items[end - 1].id)));
    OneMoreReported(batches, hasEmbedder, replies, b, reports, failed, after, more);
  }

  /** The loop of `Index`. `replies[b]` and `inserts[b]` are what the embedder and the vector store answer
      to batch `b`; `done` counts the batches that went through, and `end` the items looked at. */
  method IndexItems(items: seq<Item>, hasEmbedder: bool, replies: seq<BatchReply>, inserts: seq<Option<string>>)
    returns (indexed: nat, failed: nat, err: Option<string>, sent: seq<VecItem>, done: nat, end: nat, reports: seq<Report>)
    requires |replies| == |inserts| == |Chunks(items, BATCH_SIZE)|
    ensures indexed == |sent|
    ensures Ended(items, Chunks(items, BATCH_SIZE), hasEmbedder, replies, inserts, done, sent, failed, reports, err, end)
  {
    ChunksAreBatches(items);
    ghost var batches := Chunks(items, BATCH_SIZE);
    NothingYet(items, batches, hasEmbedder, replies, inserts);
    hide AreBatches, Chunks, Through, Ended;
    indexed, failed, err, sent, done, end, reports := 0, 0, None, [], 0, 0, [];
    var i := 0;
    while i < |items|
      invariant i == done * BATCH_SIZE && end == Min(i, |items|) && err.None?
      invariant done <= |batches| && (done == |batches| <==> i >= |items|)
      invariant indexed == |sent|
      invariant Through(items, batches, hasEmbedder, replies, inserts, done, sent, failed, reports)
    {
      end := i + BATCH_SIZE;
      if end > |items| {
        end := |items|;
      }
      TakeBatch(batches, items, done);
      var vecItems;
      vecItems, failed, err, reports :=
        IndexBatch(items, batches, i, end, hasEmbedder, replies, inserts, done, sent, failed, reports);
      if err.Some? {
        return;
      }
      indexed := indexed + |vecItems|;
      sent := sent + vecItems;
      done := done + 1;
      i := i + BATCH_SIZE;
    }
    AllDone(items, batches, hasEmbedder, replies, inserts, sent, failed, reports);
    reports := reports + [Report(|items|, failed, None)];
  }

  lemma OneMoreWent(batches: seq<seq<Item>>, hasEmbedder: bool, replies: seq<BatchReply>,
                    inserts: seq<Option<string>>, done: nat, sent: seq<VecItem>, more: seq<VecItem>)
    requires |batches| == |replies| == |inserts| && WentThrough(batches, hasEmbedder, replies, inserts, done, sent)
    requires done < |batches| && more == BatchItems(batches[done], hasEmbedder, replies[done])
    requires !Refused(batches, hasEmbedder, replies, inserts, done)
    ensures WentThrough(batches, hasEmbedder, replies, inserts, done + 1, sent + more)
  {
    hide BatchItems;
  }
}
