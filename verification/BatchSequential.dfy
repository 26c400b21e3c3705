/**
 The sequential parts of pkg/embedding/batch.go: the retry loop around one text, and the variant that
 sends whole chunks to one chosen provider.
 */
module BatchSequential {
  import opened Wrappers
  import opened Chunking
  import opened EmbedTypes
  import opened BatchEmbedder

  /** What the retry loop returns after calls that were answered so, all but the last with a failure; `None`
      where it goes on. `interrupted` is the context's error, if it ends the wait for the next call. */
  function RetryReply(maxRetries: nat, answers: seq<Reply>, interrupted: Option<Failure>): Option<Reply> {
    if answers == [] then None else
      var last := answers[|answers| - 1];
      if last.Embedded? then Some(last)
      else if |answers| > maxRetries then Some(Reply.Failed(AfterRetries(maxRetries, last.err)))
      else if interrupted.Some? then Some(Reply.Failed(interrupted.value))
      else None
  }

  /** `processWithRetry`. `answers[k]` is what the manager answers at attempt `k`; `interrupts[k]` says
      whether the wait before attempt `k` ends because the context is done. */
  method ProcessWithRetry(maxRetries: nat, answers: seq<Reply>, interrupts: seq<Option<Failure>>)
    returns (r: Reply, calls: nat)
    requires |answers| == |interrupts| == maxRetries + 1
    ensures 1 <= calls <= maxRetries + 1
    ensures forall k :: 0 <= k < calls - 1 ==> answers[k].Failed?
    ensures forall k :: 1 <= k < calls ==> interrupts[k].None?
    ensures RetryReply(maxRetries, answers[..calls], if calls <= maxRetries then interrupts[calls] else None) == Some(r)
    ensures forall k :: 1 <= k < calls ==> RetryReply(maxRetries, answers[..k], interrupts[k]) == None
    ensures answers[calls - 1].Embedded? ==> r == answers[calls - 1]
    ensures answers[calls - 1].Failed? && calls <= maxRetries ==>
              interrupts[calls].Some? && r == Reply.Failed(interrupts[calls].value)
    ensures answers[calls - 1].Failed? && calls == maxRetries + 1 ==>
              r == Reply.Failed(AfterRetries(maxRetries, answers[maxRetries].err))
  {
    var lastErr := None;
    var attempt := 0;
    calls := 0;
    while attempt <= maxRetries
      invariant 0 <= attempt == calls <= maxRetries + 1
      invariant forall k :: 0 <= k < attempt ==> answers[k].Failed?
      invariant forall k :: 1 <= k < attempt ==> interrupts[k].None?
      invariant attempt > 0 ==> lastErr == Some(answers[attempt - 1].err)
    {
      if attempt > 0 {
        if interrupts[attempt].Some? {
          return Reply.Failed(interrupts[attempt].value), calls;
        }
      }
      var answer := answers[attempt];
      calls := calls + 1;
      if answer.Embedded? {
        return answer, calls;
      }
      lastErr := Some(answer.err);
      attempt := attempt + 1;
    }
    r := Reply.Failed(AfterRetries(maxRetries, lastErr.value));
  }

  /** What `ProcessWithProvider` meets: `ctxErr(b)` is what the context reports when the chunk starting at
      `b` is reached, `answer(b)` what the provider replies to that chunk. */
  datatype Scenario = Scenario(
    texts: seq<string>,
    chunkSize: nat,
    ctxErr: nat -> Option<Failure>,
    answer: nat -> Result<seq<Embedding>, Failure>)

  /** The start of the chunk that index `i` falls in. */
  function StartOf(i: nat, size: nat): (b: nat)
    requires size > 0
    ensures b <= i < b + size
  {
    if i < size then 0 else size + StartOf(i - size, size)
  }

  lemma {:induction false} StartOfChunk(b: nat, i: nat, size: nat)
    requires size > 0 && StartOf(b, size) == b && b <= i < b + size
    ensures StartOf(i, size) == b && StartOf(b + size, size) == b + size
  {
    if b >= size {
      StartOfChunk(b - size, i - size, size);
    }
  }

  /** The error that ended the walk at or before the chunk starting at `b`, if any. */
  function StoppedBy(p: Scenario, b: nat): Option<Failure>
    requires p.chunkSize > 0
    decreases b
  {
    if b >= p.chunkSize && StoppedBy(p, b - p.chunkSize).Some? then StoppedBy(p, b - p.chunkSize)
    else p.ctxErr(b)
  }

  /** The first complaint `validateBatchEmbeddings` makes, if any. */
  function Complaint(embeddings: seq<Embedding>, want: nat): (c: Option<Failure>)
    ensures c.None? <==> |embeddings| == want && None !in embeddings
  {
    if |embeddings| != want then Some(WrongCount(|embeddings|, want)) else FirstNil(embeddings, 0)
  }

  function FirstNil(embeddings: seq<Embedding>, i: nat): (c: Option<Failure>)
    requires i <= |embeddings|
    ensures c.None? <==> None !in embeddings[i..]
    ensures c.Some? ==> c.value.NilEmbedding? && i <= c.value.index < |embeddings|
                        && embeddings[c.value.index] == None && None !in embeddings[i..c.value.index]
    decreases |embeddings| - i
  {
    if i == |embeddings| then None
    else if embeddings[i] == None then Some(NilEmbedding(i))
    else
      assert embeddings[i..] == [embeddings[i]] + embeddings[i + 1..];
      var rest := FirstNil(embeddings, i + 1);
      assert rest.Some? ==> embeddings[i..rest.value.index] == [embeddings[i]] + embeddings[i + 1..rest.value.index];
      rest
  }

  method ValidateBatchEmbeddings(embeddings: seq<Embedding>, want: nat) returns (c: Option<Failure>)
    ensures c == Complaint(embeddings, want)
  {
    if |embeddings| != want {
      return Some(WrongCount(|embeddings|, want));
    }
    for i := 0 to |embeddings|
      invariant FirstNil(embeddings, i) == FirstNil(embeddings, 0)
    {
      if embeddings[i] == None {
        return Some(NilEmbedding(i));
      }
    }
    c := None;
  }

  /** What becomes of index `i`: the context's error once the walk has stopped, the whole chunk's error
      where the provider failed or replied badly, and otherwise the index's own embedding. */
  function Outcome(p: Scenario, i: nat): Result<Embedding, Failure>
    requires p.chunkSize > 0 && i < |p.texts|
  {
    var b := StartOf(i, p.chunkSize);
    if StoppedBy(p, b).Some? then Err(StoppedBy(p, b).value) else
      match p.answer(b)
      case Err(e) => Err(e)
      case Ok(es) =>
        var c := Complaint(es, Min(b + p.chunkSize, |p.texts|) - b);
        if c.Some? then Err(c.value) else Ok(es[i - b])
  }

  /** Where chunk `k` starts. */
  function Chunk(p: Scenario, k: nat): nat {
    k * p.chunkSize
  }

  /** No chunk up to `k` is reached with the context done. */
  ghost predicate Undisturbed(p: Scenario, k: nat) {
    forall j: nat :: j <= k ==> p.ctxErr(Chunk(p, j)).None?
  }

  /** Chunk `k` is the first one to be reached with the context done, which reports `e`. */
  ghost predicate StopsAt(p: Scenario, k: nat, e: Failure) {
    p.ctxErr(Chunk(p, k)) == Some(e) && forall j: nat :: j < k ==> p.ctxErr(Chunk(p, j)).None?
  }

  /** What the provider's reply to a chunk of `want` texts makes of its `n`-th one: its embedding, if there is
      one for each; otherwise what is wrong with the reply, for all of them. */
  ghost predicate Gets(reply: Result<seq<Embedding>, Failure>, want: nat, n: nat, o: Result<Embedding, Failure>) {
    match reply
    case Err(e) => o == Err(e)
    case Ok(es) =>
      if |es| != want then o == Err(WrongCount(|es|, want))
      else if None !in es then n < want && o == Ok(es[n])
      else exists j :: 0 <= j < |es| && es[j] == None && None !in es[..j] && o == Err(NilEmbedding(j))
  }

  /** What becomes of the `n`-th text of chunk `k`. */
  ghost predicate Becomes(p: Scenario, k: nat, n: nat, o: Result<Embedding, Failure>)
    requires Chunk(p, k) < |p.texts|
  {
    if Undisturbed(p, k) then
      Gets(p.answer(Chunk(p, k)), |p.texts[Chunk(p, k)..Min(Chunk(p, k) + p.chunkSize, |p.texts|)]|, n, o)
    else exists j: nat, e :: j <= k && StopsAt(p, j, e) && o == Err(e)
  }

  lemma {:induction false} StartIs(p: Scenario, k: nat, n: nat)
    requires n < p.chunkSize
    ensures StartOf(Chunk(p, k) + n, p.chunkSize) == Chunk(p, k)
  {
    if k > 0 {
      StartIs(p, k - 1, n);
      assert Chunk(p, k - 1) + p.chunkSize == Chunk(p, k);
    }
  }

  lemma {:induction false} StoppedMeans(p: Scenario, k: nat)
    requires p.chunkSize > 0
    ensures var stopped := StoppedBy(p, Chunk(p, k));
            && (stopped.None? <==> Undisturbed(p, k))
            && (stopped.Some? ==> exists j: nat :: j <= k && StopsAt(p, j, stopped.value))
  {
    if k > 0 {
      StoppedMeans(p, k - 1);
      assert Chunk(p, k) - p.chunkSize == Chunk(p, k - 1);
    }
    if StoppedBy(p, Chunk(p, k)).Some? && (k == 0 || StoppedBy(p, Chunk(p, k - 1)).None?) {
      assert StopsAt(p, k, p.ctxErr(Chunk(p, k)).value);
    }
  }

  /** What the model says of each text is what the context and the provider say of its chunk. */
  lemma OutcomeMeans(p: Scenario, k: nat, n: nat)
    requires n < p.chunkSize && Chunk(p, k) + n < |p.texts|
    ensures Becomes(p, k, n, Outcome(p, Chunk(p, k) + n))
  {
    StartIs(p, k, n);
    StoppedMeans(p, k);
    hide StartOf, StoppedBy, Undisturbed, StopsAt, Chunk;
  }

  /** The errors of the first `n` indices: in index order, each with its text and its cause. */
  function ErrorsUpTo(p: Scenario, n: nat): (es: seq<BatchError>)
    requires p.chunkSize > 0 && n <= |p.texts|
    ensures |es| <= n
    ensures forall k, l :: 0 <= k < l < |es| ==> es[k].index < es[l].index
    ensures forall k {:trigger es[k]} :: 0 <= k < |es| ==>
              es[k].index < n && es[k].text == p.texts[es[k].index] && Outcome(p, es[k].index) == Err(es[k].err)
  {
    if n == 0 then [] else
      var o := Outcome(p, n - 1);
      ErrorsUpTo(p, n - 1) + if o.Err? then [BatchError(n - 1, p.texts[n - 1], o.error)] else []
  }

  /** The error list names exactly the failed indices, each once. */
  lemma {:induction false} ErrorsAreTheFailures(p: Scenario, n: nat, i: nat)
    requires p.chunkSize > 0 && i < n <= |p.texts|
    ensures Distinct(ErrorsUpTo(p, n))
    ensures Listed(ErrorsUpTo(p, n), i) <==> Outcome(p, i).Err?
  {
    var es, o := ErrorsUpTo(p, n - 1), Outcome(p, n - 1);
    if o.Err? {
      ListedGrows(es, BatchError(n - 1, p.texts[n - 1], o.error));
    } else {
      assert ErrorsUpTo(p, n) == es;
    }
    if i < n - 1 {
      ErrorsAreTheFailures(p, n - 1, i);
    }
  }

  /** `atomic.Int32.Add(int32(k))`. */
  function AddTo(counter: int, k: nat): int {
    (counter + k + 0x8000_0000) % 0x1_0000_0000 - 0x8000_0000
  }

  lemma CounterAdds(n: nat, k: nat)
    ensures CounterAfter(n + k) == AddTo(CounterAfter(n), k)
  {
    CounterIsTwosComplement(n);
    CounterIsTwosComplement(n + k);
  }

  /** After a stop at chunk `b`, every later index has the stop's error. */
  lemma {:induction false} StopSpreads(p: Scenario, b: nat, i: nat)
    requires p.chunkSize > 0 && StartOf(b, p.chunkSize) == b && b <= i < |p.texts|
    requires StoppedBy(p, b).Some?
    ensures StoppedBy(p, StartOf(i, p.chunkSize)) == StoppedBy(p, b)
    decreases i
  {
    if i < b + p.chunkSize {
      StartOfChunk(b, i, p.chunkSize);
    } else {
      StopSpreads(p, b, i - p.chunkSize);
    }
  }

  /** What the loop variables of `ProcessWithProvider` hold once the first `n` indices are settled. */
  datatype Progress = Progress(
    results: seq<Embedding>, errors: seq<BatchError>, succeeded: int, failed: int)
  {
    ghost predicate UpTo(p: Scenario, n: nat)
      requires p.chunkSize > 0
    {
      && n <= |p.texts| == |results|
      && (forall k: nat :: k < |results| ==> results[k] == ResultAt(p, n, k))
      && errors == ErrorsUpTo(p, n)
      && failed == CounterAfter(|errors|) && succeeded == CounterAfter(n - |errors|)
    }
  }

  function ResultAt(p: Scenario, n: nat, k: nat): Embedding
    requires p.chunkSize > 0 && k < |p.texts|
  {
    if k < n && Outcome(p, k).Ok? then Outcome(p, k).value else None
  }

  /** The loops that give the indices `from..to` one error. */
  method FailFrom(p: Scenario, from: nat, to: nat, err: Failure, before: Progress) returns (after: Progress)
    requires p.chunkSize > 0 && from <= to <= |p.texts| && before.UpTo(p, from)
    requires forall k: nat :: from <= k < to ==> Outcome(p, k) == Err(err)
    ensures after.UpTo(p, to)
  {
    hide Outcome;
    var errors, failed := before.errors, before.failed;
    for j := from to to
      invariant errors == ErrorsUpTo(p, j) && failed == CounterAfter(|errors|)
      invariant |errors| - |before.errors| == j - from
    {
      assert Outcome(p, j) == Err(err);
      errors := errors + [BatchError(j, p.texts[j], err)];
      failed := Increment(failed);
    }
    assert to - |errors| == from - |before.errors|;
    forall k: nat | k < |p.texts|
      ensures ResultAt(p, to, k) == ResultAt(p, from, k)
    {
      assert from <= k < to ==> Outcome(p, k) == Err(err);
    }
    after := before.(errors := errors, failed := failed);
  }

  /** The loop that stores a chunk's embeddings. */
  method StoreFrom(p: Scenario, from: nat, embeddings: seq<Embedding>, before: seq<Embedding>)
    returns (results: seq<Embedding>)
    requires p.chunkSize > 0 && from + |embeddings| <= |p.texts| == |before|
    requires forall k: nat :: k < |before| ==> before[k] == ResultAt(p, from, k)
    requires forall j: nat :: j < |embeddings| ==> Outcome(p, from + j) == Ok(embeddings[j])
    ensures |results| == |p.texts|
    ensures forall k: nat :: k < |results| ==> results[k] == ResultAt(p, from + |embeddings|, k)
  {
    hide Outcome;
    results := before;
    for j := 0 to |embeddings|
      invariant |results| == |p.texts|
      invariant forall k: nat :: k < |results| ==> results[k] == ResultAt(p, from + j, k)
    {
      assert Outcome(p, from + j) == Ok(embeddings[j]);
      results := results[from + j := embeddings[j]];
    }
  }

  lemma {:induction false} NoErrorsFrom(p: Scenario, from: nat, to: nat)
    requires p.chunkSize > 0 && from <= to <= |p.texts|
    requires forall k: nat :: from <= k < to ==> Outcome(p, k).Ok?
    ensures ErrorsUpTo(p, to) == ErrorsUpTo(p, from)
  {
    if from < to {
      NoErrorsFrom(p, from, to - 1);
      assert Outcome(p, to - 1).Ok?;
    }
  }

  method SucceedFrom(p: Scenario, from: nat, embeddings: seq<Embedding>, before: Progress) returns (after: Progress)
    requires p.chunkSize > 0 && from + |embeddings| <= |p.texts| && before.UpTo(p, from)
    requires forall j: nat :: j < |embeddings| ==> Outcome(p, from + j) == Ok(embeddings[j])
    ensures after.UpTo(p, from + |embeddings|)
  {
    hide Outcome;
    var results := StoreFrom(p, from, embeddings, before.results);
    forall k: nat | from <= k < from + |embeddings|
      ensures Outcome(p, k).Ok?
    {
      assert Outcome(p, from + (k - from)) == Ok(embeddings[k - from]);
    }
    NoErrorsFrom(p, from, from + |embeddings|);
    CounterAdds(from - |before.errors|, |embeddings|);
    after := before.(results := results, succeeded := AddTo(before.succeeded, |embeddings|));
  }

  /** The outcome of an index inside a chunk that is reached in a live context. */
  lemma LiveOutcome(p: Scenario, from: nat, to: nat, k: nat)
    requires p.chunkSize > 0 && from < |p.texts| && to == Min(from + p.chunkSize, |p.texts|)
    requires StartOf(from, p.chunkSize) == from && StoppedBy(p, from).None? && from <= k < to
    ensures Outcome(p, k) ==
            match p.answer(from)
            case Err(e) => Err(e)
            case Ok(es) =>
              (match Complaint(es, to - from)
               case Some(c) => Err(c)
               case None => Ok(es[k - from]))
  {
    StartOfChunk(from, k, p.chunkSize);
  }

  /** One round of the loop in a live context. */
  method SettleChunk(p: Scenario, from: nat, to: nat, before: Progress) returns (after: Progress)
    requires p.chunkSize > 0 && from < |p.texts| && to == Min(from + p.chunkSize, |p.texts|)
    requires StartOf(from, p.chunkSize) == from && StoppedBy(p, from).None? && before.UpTo(p, from)
    ensures after.UpTo(p, to)
  {
    hide Outcome;
    var answer := p.answer(from);
    var complaint := None;
    if answer.Err? {
      complaint := Some(answer.error);
    } else {
      complaint := ValidateBatchEmbeddings(answer.value, to - from);
    }
    forall k: nat | from <= k < to
      ensures Outcome(p, k) == if complaint.Some? then Err(complaint.value) else Ok(answer.value[k - from])
    {
      LiveOutcome(p, from, to, k);
    }
    if complaint.Some? {
      after := FailFrom(p, from, to, complaint.value, before);
    } else {
      after := SucceedFrom(p, from, answer.value, before);
    }
  }

  lemma StillLive(p: Scenario, i: nat)
    requires p.chunkSize > 0 && i < |p.texts| && StartOf(i, p.chunkSize) == i && p.ctxErr(i).None?
    requires i >= p.chunkSize ==> StoppedBy(p, i - p.chunkSize).None?
    ensures StoppedBy(p, i).None?
  {
  }

  lemma StopsTheRest(p: Scenario, i: nat, err: Failure)
    requires p.chunkSize > 0 && i < |p.texts| && StartOf(i, p.chunkSize) == i && p.ctxErr(i) == Some(err)
    requires i >= p.chunkSize ==> StoppedBy(p, i - p.chunkSize).None?
    ensures forall k: nat :: i <= k < |p.texts| ==> Outcome(p, k) == Err(err)
  {
    forall k: nat | i <= k < |p.texts|
      ensures Outcome(p, k) == Err(err)
    {
      StopSpreads(p, i, k);
    }
  }

  datatype ProviderError = InvalidProvider(index: int)

  /** `ProcessWithProvider`, with the chosen provider's behaviour given by the scenario. */
  method ProcessWithProvider(p: Scenario, providers: nat, providerIdx: int)
    returns (r: Result<BatchResult, ProviderError>)
    requires p.chunkSize > 0
    ensures p.texts == [] ==> r == Ok(BatchResult([], [], 0, 0, 0))
    ensures p.texts != [] && !(0 <= providerIdx < providers) ==> r == Err(InvalidProvider(providerIdx))
    ensures p.texts != [] && 0 <= providerIdx < providers ==>
              && r.Ok? && r.value.total == |p.texts| == |r.value.embeddings|
              && r.value.errors == ErrorsUpTo(p, |p.texts|)
              && (forall i: nat :: i < |p.texts| ==>
                    r.value.embeddings[i] == ResultAt(p, |p.texts|, i))
              && r.value.failed == CounterAfter(|r.value.errors|)
              && r.value.succeeded == CounterAfter(|p.texts| - |r.value.errors|)
  {
    hide Outcome, StoppedBy;
    if p.texts == [] {
      return Ok(BatchResult([], [], 0, 0, 0));
    }
    if providerIdx < 0 || providerIdx >= providers {
      return Err(InvalidProvider(providerIdx));
    }
    var total := |p.texts|;
    var state := Progress(seq(total, _ => None), [], 0, 0);
    var i: nat := 0;
    while i < total
      invariant i < total ==> StartOf(i, p.chunkSize) == i
      invariant p.chunkSize <= i < total ==> StoppedBy(p, i - p.chunkSize).None?
      invariant state.UpTo(p, Min(i, total))
    {
      var ctxErr := p.ctxErr(i);
      if ctxErr.Some? {
        StopsTheRest(p, i, ctxErr.value);
        state := FailFrom(p, i, total, ctxErr.value, state);
        break;
      }
      var end := i + p.chunkSize;
      if end > total {
        end := total;
      }
      StillLive(p, i);
      state := SettleChunk(p, i, end, state);
      StartOfChunk(i, i, p.chunkSize);
      i := i + p.chunkSize;
    }
    r := Ok(BatchResult(state.results, state.errors, total, state.succeeded, state.failed));
  }
}
