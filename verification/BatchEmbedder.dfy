/**
 The concurrent batch embedder of pkg/embedding/batch.go: one dispatcher walks the chunks, takes a slot
 of a counting semaphore per text and spawns a worker; the workers share a result array, a mutex-guarded
 error list and three atomic 32-bit counters; the context may be cancelled at any moment.

 The program is a step system. Every access to shared state is a step of its own; a critical section
 that only appends to the error list is one step. What a provider answers is an argument of the step
 in which `processWithRetry` returns.
 */
module BatchEmbedder {
  import opened Wrappers
  import opened Chunking
  import opened EmbedTypes

  datatype BatchError = BatchError(index: nat, text: string, err: Failure)

  datatype BatchResult = BatchResult(
    embeddings: seq<Embedding>, errors: seq<BatchError>, total: nat, succeeded: int, failed: int)

  datatype Env = Env(texts: seq<string>, chunkSize: nat, concurrency: nat) {
    ghost predicate Valid() {
      chunkSize > 0 && concurrency > 0
    }
  }

  /** The environment `NewBatchProcessor` sets up: non-positive settings become the defaults, so every
      configuration gives a valid one. */
  function NewEnv(texts: seq<string>, chunkSize: int, concurrency: int): (env: Env)
    ensures env.Valid() && env.texts == texts
    ensures chunkSize > 0 ==> env.chunkSize == chunkSize
    ensures chunkSize <= 0 ==> env.chunkSize == 100
    ensures concurrency > 0 ==> env.concurrency == concurrency
    ensures concurrency <= 0 ==> env.concurrency == 4
  {
    Env(texts, if chunkSize <= 0 then 100 else chunkSize, if concurrency <= 0 then 4 else concurrency)
  }

  /** Where a worker stands: the names say what it has just done. */
  datatype Pc = Calling | Answered | FailCounted | Stored | Settled | Processed | Released | Exited

  datatype Worker = Worker(idx: nat, text: string, pc: Pc, reply: Option<Reply>)

  /** Where the dispatcher stands; `chunk` and `item` are the two range-loop indices. */
  datatype Dispatcher =
    | Loop(chunk: nat, item: nat)
    | Acquire(chunk: nat, item: nat)
    | Register(chunk: nat, item: nat)
    | Spawn(chunk: nat, item: nat)
    | Drain(next: nat)
    | DrainCount(next: nat)
    | Wait
    | Returned(result: BatchResult)

  datatype State = State(
    disp: Dispatcher,
    workers: seq<Worker>,
    tokens: nat,
    wg: nat,
    results: seq<Embedding>,
    errors: seq<BatchError>,
    succeeded: int,
    failed: int,
    processed: int,
    done: Option<Failure>)

  datatype Action = Dispatch | Work(worker: nat, reply: Reply) | Cancel(err: Failure)

  /** `atomic.Int32.Add(1)`, which wraps around at the top of the 32-bit range. */
  function Increment(counter: int): int {
    if counter == 0x7fff_ffff then -0x8000_0000 else counter + 1
  }

  /** What such a counter shows after `n` increments from zero. */
  function CounterAfter(n: int): int {
    if n <= 0 then 0 else Increment(CounterAfter(n - 1))
  }

  /** The counter is the count modulo 2^32, read as two's complement; so it is the count itself
      exactly as long as the count fits in 31 bits. */
  lemma {:induction false} CounterIsTwosComplement(n: nat)
    ensures CounterAfter(n) == (n + 0x8000_0000) % 0x1_0000_0000 - 0x8000_0000
    ensures CounterAfter(n) == n <==> n < 0x8000_0000
    ensures CounterAfter(n) <= n
  {
    if n > 0 {
      CounterIsTwosComplement(n - 1);
    }
  }

  function Init(env: Env): State {
    var n := |env.texts|;
    State(if n == 0 then Returned(BatchResult([], [], 0, 0, 0)) else Loop(0, 0),
          [], 0, 0, seq(n, _ => None), [], 0, 0, 0, None)
  }

  function GlobalIdx(env: Env, chunk: nat, item: nat): nat {
    chunk * env.chunkSize + item
  }

  /** One step of the dispatcher, or `None` where it is blocked or has returned. */
  function DispatchStep(env: Env, s: State): Option<State>
    requires env.Valid()
  {
    var total := |env.texts|;
    var chunks := Chunks(env.texts, env.chunkSize);
    match s.disp
    case Loop(c, i) =>
      if c >= |chunks| then Some(s.(disp := Wait))
      else if i >= |chunks[c]| then Some(s.(disp := Loop(c + 1, 0)))
      else if s.done.Some? then Some(s.(disp := Drain(GlobalIdx(env, c, i))))
      else Some(s.(disp := Acquire(c, i)))
    case Acquire(c, i) =>
      if s.tokens >= env.concurrency then None
      else Some(s.(disp := Register(c, i), tokens := s.tokens + 1))
    case Register(c, i) =>
      Some(s.(disp := Spawn(c, i), wg := s.wg + 1))
    case Spawn(c, i) =>
      if c >= |chunks| || i >= |chunks[c]| then None
      else
        var w := Worker(GlobalIdx(env, c, i), chunks[c][i], Calling, None);
        Some(s.(disp := Loop(c, i + 1), workers := s.workers + [w]))
    case Drain(i) =>
      if i >= total then Some(s.(disp := Wait))
      else if s.done.None? then None
      else Some(s.(disp := DrainCount(i), errors := s.errors + [BatchError(i, env.texts[i], s.done.value)]))
    case DrainCount(i) =>
      Some(s.(disp := Drain(i + 1), failed := Increment(s.failed)))
    case Wait =>
      if s.wg > 0 then None
      else Some(s.(disp := Returned(BatchResult(s.results, s.errors, total, s.succeeded, s.failed))))
    case Returned(_) => None
  }

  /** One step of worker `j`; `reply` is what `processWithRetry` returns when that is the step. */
  function WorkStep(s: State, j: nat, reply: Reply): Option<State> {
    if j >= |s.workers| then None else
      var w := s.workers[j];
      match w.pc
      case Calling =>
        Some(s.(workers := s.workers[j := w.(pc := Answered, reply := Some(reply))]))
      case Answered =>
        if w.reply.None? then None else (
          match w.reply.value
          case Failed(_) =>
            Some(s.(workers := s.workers[j := w.(pc := FailCounted)], failed := Increment(s.failed)))
          case Embedded(v) =>
            if w.idx >= |s.results| then None
            else Some(s.(workers := s.workers[j := w.(pc := Stored)], results := s.results[w.idx := v])))
      case FailCounted =>
        if w.reply.None? || !w.reply.value.Failed? then None
        else Some(s.(workers := s.workers[j := w.(pc := Settled)],
                     errors := s.errors + [BatchError(w.idx, w.text, w.reply.value.err)]))
      case Stored =>
        Some(s.(workers := s.workers[j := w.(pc := Settled)], succeeded := Increment(s.succeeded)))
      case Settled =>
        Some(s.(workers := s.workers[j := w.(pc := Processed)], processed := Increment(s.processed)))
      case Processed =>
        if s.tokens == 0 then None
        else Some(s.(workers := s.workers[j := w.(pc := Released)], tokens := s.tokens - 1))
      case Released =>
        if s.wg == 0 then None
        else Some(s.(workers := s.workers[j := w.(pc := Exited)], wg := s.wg - 1))
      case Exited => None
  }

  /** The effect of one action, or `None` where the action cannot happen. */
  function Next(env: Env, s: State, a: Action): Option<State>
    requires env.Valid()
  {
    match a
    case Dispatch => DispatchStep(env, s)
    case Work(j, reply) => WorkStep(s, j, reply)
    case Cancel(err) => if s.done.Some? then None else Some(s.(done := Some(err)))
  }

  /** The state after a run from `s`, or `None` where some action of the list cannot happen. */
  function Exec(env: Env, s: State, run: seq<Action>): Option<State>
    requires env.Valid()
    decreases run
  {
    if run == [] then Some(s) else
      match Next(env, s, run[0])
      case None => None
      case Some(t) => Exec(env, t, run[1..])
  }

  /** The state after a run of `Process` from its start. */
  function Reach(env: Env, run: seq<Action>): Option<State>
    requires env.Valid()
  {
    Exec(env, Init(env), run)
  }

  // ---------------------------------------------------------------- tallies over the workers

  /** How many workers hold a slot, are not done, have counted a success, and so on; `rank` bounds the
      steps they still have to take. */
  datatype Tally = Tally(holding: nat, live: nat, ok: nat, failed: nat, reported: nat, processed: nat, rank: nat)

  function Bit(b: bool): nat {
    if b then 1 else 0
  }

  predicate Holds(w: Worker) {
    !w.pc.Released? && !w.pc.Exited?
  }

  predicate PastSettling(w: Worker) {
    w.pc.Settled? || w.pc.Processed? || w.pc.Released? || w.pc.Exited?
  }

  function Rank(pc: Pc): nat {
    match pc
    case Calling => 6
    case Answered => 5
    case FailCounted => 4
    case Stored => 4
    case Settled => 3
    case Processed => 2
    case Released => 1
    case Exited => 0
  }

  predicate IsFailed(w: Worker) {
    w.reply.Some? && w.reply.value.Failed?
  }

  function TallyOf(w: Worker): Tally {
    Tally(Bit(Holds(w)), Bit(w.pc != Exited), Bit(PastSettling(w) && !IsFailed(w)),
          Bit((PastSettling(w) || w.pc.FailCounted?) && IsFailed(w)), Bit(PastSettling(w) && IsFailed(w)),
          Bit(w.pc.Processed? || w.pc.Released? || w.pc.Exited?), Rank(w.pc))
  }

  function Plus(a: Tally, b: Tally): Tally {
    Tally(a.holding + b.holding, a.live + b.live, a.ok + b.ok, a.failed + b.failed,
          a.reported + b.reported, a.processed + b.processed, a.rank + b.rank)
  }

  function Sum(ws: seq<Worker>): Tally {
    if ws == [] then Tally(0, 0, 0, 0, 0, 0, 0) else Plus(Sum(ws[..|ws| - 1]), TallyOf(ws[|ws| - 1]))
  }

  lemma PlusSwap(p: Tally, q: Tally, c: Tally, x: Tally, y: Tally)
    requires Plus(p, x) == Plus(q, y)
    ensures Plus(Plus(p, c), x) == Plus(Plus(q, c), y)
  {
  }

  lemma {:induction false} SumUpdate(ws: seq<Worker>, j: nat, w: Worker)
    requires j < |ws|
    ensures Plus(Sum(ws[j := w]), TallyOf(ws[j])) == Plus(Sum(ws), TallyOf(w))
  {
    hide TallyOf;
    var n := |ws| - 1;
    var us := ws[j := w];
    if j == n {
      assert us[..n] == ws[..n];
    } else {
      SumUpdate(ws[..n], j, w);
      assert us[..n] == ws[..n][j := w];
      hide Plus;
      PlusSwap(Sum(us[..n]), Sum(ws[..n]), TallyOf(ws[n]), TallyOf(ws[j]), TallyOf(w));
    }
  }

  lemma {:induction false} SumCovers(ws: seq<Worker>, j: nat)
    requires j < |ws|
    ensures Sum(ws).live >= TallyOf(ws[j]).live && Sum(ws).holding >= TallyOf(ws[j]).holding
  {
    if j < |ws| - 1 {
      SumCovers(ws[..|ws| - 1], j);
    }
  }

  /** The tallies of a set of workers that have all exited. */
  lemma {:induction false} SumExited(ws: seq<Worker>)
    requires forall j :: 0 <= j < |ws| ==> ws[j].pc.Exited? && ws[j].reply.Some?
    ensures Sum(ws).ok + Sum(ws).failed == |ws|
    ensures Sum(ws).reported == Sum(ws).failed && Sum(ws).processed == |ws| && Sum(ws).holding == 0
  {
    if ws != [] {
      SumExited(ws[..|ws| - 1]);
    }
  }

  ghost function HolderSet(ws: seq<Worker>): set<nat> {
    set j: nat | j < |ws| && Holds(ws[j])
  }

  /** The `holding` tally counts the workers that hold a slot. */
  lemma {:induction false} HoldingCounts(ws: seq<Worker>)
    ensures |HolderSet(ws)| == Sum(ws).holding
  {
    if ws != [] {
      var n := |ws| - 1;
      HoldingCounts(ws[..n]);
      assert HolderSet(ws) == HolderSet(ws[..n]) + if Holds(ws[n]) then {n} else {};
    }
  }

  lemma {:induction false} SomeoneHolds(ws: seq<Worker>) returns (j: nat)
    requires Sum(ws).holding > 0
    ensures j < |ws| && Holds(ws[j])
  {
    var n := |ws| - 1;
    if Holds(ws[n]) {
      j := n;
    } else {
      j := SomeoneHolds(ws[..n]);
    }
  }

  lemma {:induction false} SomeoneLives(ws: seq<Worker>) returns (j: nat)
    requires Sum(ws).live > 0
    ensures j < |ws| && ws[j].pc != Exited
  {
    var n := |ws| - 1;
    if ws[n].pc != Exited {
      j := n;
    } else {
      j := SomeoneLives(ws[..n]);
    }
  }

  // ---------------------------------------------------------------- the invariant

  /** How many of the indices from `|workers|` on the drain loop has put in the error list. */
  function Drained(env: Env, s: State): nat {
    var n := |s.workers|;
    match s.disp
    case Drain(i) => if i >= n then i - n else 0
    case DrainCount(i) => if i >= n then i + 1 - n else 0
    case Wait => if |env.texts| >= n then |env.texts| - n else 0
    case Returned(_) => if |env.texts| >= n then |env.texts| - n else 0
    case _ => 0
  }

  ghost predicate WorkerOk(env: Env, w: Worker, j: nat)
    requires j < |env.texts|
  {
    && w.idx == j && w.text == env.texts[j]
    && (w.reply.None? <==> w.pc.Calling?)
    && (w.pc.FailCounted? ==> IsFailed(w))
    && (w.pc.Stored? ==> !IsFailed(w))
  }

  ghost predicate WorkersOk(env: Env, s: State) {
    && |s.workers| <= |env.texts|
    && forall j {:trigger s.workers[j]} :: 0 <= j < |s.workers| ==> WorkerOk(env, s.workers[j], j)
  }

  ghost predicate DispatcherOk(env: Env, s: State)
    requires env.Valid()
  {
    var chunks := Chunks(env.texts, env.chunkSize);
    match s.disp
    case Loop(c, i) =>
      && c <= |chunks|
      && (c == |chunks| ==> |s.workers| == |env.texts|)
      && (c < |chunks| ==> i <= |chunks[c]| && GlobalIdx(env, c, i) == |s.workers|)
    case Acquire(c, i) => c < |chunks| && i < |chunks[c]| && GlobalIdx(env, c, i) == |s.workers|
    case Register(c, i) => c < |chunks| && i < |chunks[c]| && GlobalIdx(env, c, i) == |s.workers|
    case Spawn(c, i) => c < |chunks| && i < |chunks[c]| && GlobalIdx(env, c, i) == |s.workers|
    case Drain(i) => |s.workers| <= i <= |env.texts| && s.done.Some?
    case DrainCount(i) => |s.workers| <= i < |env.texts| && s.done.Some?
    case Wait => |s.workers| == |env.texts| || s.done.Some?
    case Returned(r) =>
      && (|s.workers| == |env.texts| || s.done.Some?)
      && s.wg == 0
      && r == BatchResult(s.results, s.errors, |env.texts|, s.succeeded, s.failed)
  }

  ghost predicate CountersOk(env: Env, s: State) {
    var t := Sum(s.workers);
    && s.tokens == t.holding + Bit(s.disp.Register? || s.disp.Spawn?)
    && s.tokens <= env.concurrency
    && s.wg == t.live + Bit(s.disp.Spawn?)
    && |s.errors| == t.reported + Drained(env, s)
    && AtomicsOk(s, t, Drained(env, s) - Bit(s.disp.DrainCount?))
  }

  ghost predicate AtomicsOk(s: State, t: Tally, drainCounted: int) {
    && s.succeeded == CounterAfter(t.ok)
    && s.failed == CounterAfter(t.failed + drainCounted)
    && s.processed == CounterAfter(t.processed)
  }

  ghost predicate ResultsOk(env: Env, s: State) {
    && |s.results| == |env.texts|
    && forall j {:trigger s.results[j]} :: 0 <= j < |s.results| ==>
      s.results[j] ==
      if j < |s.workers| && (s.workers[j].pc.Stored? || PastSettling(s.workers[j]))
         && s.workers[j].reply.Some? && s.workers[j].reply.value.Embedded?
      then s.workers[j].reply.value.vector
      else None
  }

  /** Whether index `i` has been put in the error list. */
  ghost predicate Reported(env: Env, s: State, i: int) {
    if 0 <= i < |s.workers| then PastSettling(s.workers[i]) && IsFailed(s.workers[i])
    else |s.workers| <= i < |s.workers| + Drained(env, s)
  }

  /** Why index `i` is in the error list. */
  ghost predicate RightCause(s: State, i: nat, err: Failure) {
    if i < |s.workers| then s.workers[i].reply == Some(Reply.Failed(err)) else s.done == Some(err)
  }

  ghost predicate Listed(errors: seq<BatchError>, i: int) {
    exists k :: 0 <= k < |errors| && errors[k].index == i
  }

  ghost predicate Distinct(errors: seq<BatchError>) {
    forall k, l :: 0 <= k < l < |errors| ==> errors[k].index != errors[l].index
  }

  ghost predicate ErrorsOk(env: Env, s: State) {
    && Distinct(s.errors)
    && (forall k {:trigger s.errors[k]} :: 0 <= k < |s.errors| ==>
      var e := s.errors[k];
      e.index < |env.texts| && e.text == env.texts[e.index] && Reported(env, s, e.index) && RightCause(s, e.index, e.err))
    && (forall i :: Reported(env, s, i) ==> Listed(s.errors, i))
  }

  ghost predicate Inv(env: Env, s: State)
    requires env.Valid()
  {
    WorkersOk(env, s) && DispatcherOk(env, s) && CountersOk(env, s) && ResultsOk(env, s) && ErrorsOk(env, s)
  }

  lemma ListedGrows(errors: seq<BatchError>, e: BatchError)
    ensures forall i :: Listed(errors + [e], i) <==> Listed(errors, i) || i == e.index
  {
    var es := errors + [e];
    assert es[|errors|] == e;
    forall i ensures Listed(es, i) <==> Listed(errors, i) || i == e.index {
      if Listed(errors, i) {
        var k :| 0 <= k < |errors| && errors[k].index == i;
        assert es[k] == errors[k];
      }
    }
  }

  lemma InitInv(env: Env)
    requires env.Valid()
    ensures Inv(env, Init(env))
  {
    if env.texts != [] {
      ChunkIsSlice(env.texts, env.chunkSize, 0);
    }
  }

  /** Where the dispatcher's loop stands after it has finished one chunk or one item. */
  lemma ChunkPosition(env: Env, c: nat)
    requires env.Valid()
    requires c < |Chunks(env.texts, env.chunkSize)|
    ensures var chunks := Chunks(env.texts, env.chunkSize);
            && |chunks[c]| > 0
            && GlobalIdx(env, c, |chunks[c]|) <= |env.texts|
            && (forall i :: 0 <= i < |chunks[c]| ==> chunks[c][i] == env.texts[GlobalIdx(env, c, i)])
            && (c + 1 == |chunks| ==> GlobalIdx(env, c, |chunks[c]|) == |env.texts|)
            && (c + 1 < |chunks| ==> GlobalIdx(env, c, |chunks[c]|) == GlobalIdx(env, c + 1, 0))
  {
    ChunkIsSlice(env.texts, env.chunkSize, c);
    OffsetIsProduct(c, env.chunkSize);
    OffsetIsProduct(c + 1, env.chunkSize);
  }

  lemma SpawnDispatcherInv(env: Env, s: State, t: State)
    requires env.Valid() && s.disp.Spawn? && DispatchStep(env, s) == Some(t)
    requires WorkersOk(env, s) && DispatcherOk(env, s)
    ensures WorkersOk(env, t) && DispatcherOk(env, t)
    ensures t.workers[..|s.workers|] == s.workers && |t.workers| == |s.workers| + 1
    ensures t.workers[|s.workers|].pc.Calling?
  {
    ChunkPosition(env, s.disp.chunk);
    assert t.workers[..|s.workers|] == s.workers;
  }

  lemma SpawnErrorsInv(env: Env, s: State, t: State)
    requires env.Valid() && s.disp.Spawn? && DispatchStep(env, s) == Some(t)
    requires ErrorsOk(env, s) && ResultsOk(env, s)
    requires t.workers[..|s.workers|] == s.workers && |t.workers| == |s.workers| + 1
    requires t.workers[|s.workers|].pc.Calling?
    ensures ErrorsOk(env, t) && ResultsOk(env, t)
  {
    assert Drained(env, t) == Drained(env, s) == 0;
    assert forall j :: 0 <= j < |s.workers| ==> t.workers[j] == s.workers[j];
    assert forall i :: Reported(env, t, i) <==> Reported(env, s, i);
  }

  lemma SpawnInv(env: Env, s: State, t: State)
    requires env.Valid() && Inv(env, s) && s.disp.Spawn? && DispatchStep(env, s) == Some(t)
    ensures Inv(env, t)
  {
    SpawnDispatcherInv(env, s, t);
    SpawnErrorsInv(env, s, t);
  }

  /** Appending an error for an index that was not reported before keeps the error list in order. */
  lemma ErrorAppended(env: Env, s: State, t: State, e: BatchError)
    requires ErrorsOk(env, s) && t.errors == s.errors + [e]
    requires e.index < |env.texts| && e.text == env.texts[e.index]
    requires !Reported(env, s, e.index) && RightCause(t, e.index, e.err)
    requires forall i :: Reported(env, t, i) <==> Reported(env, s, i) || i == e.index
    requires forall i: nat, err :: Reported(env, s, i) && RightCause(s, i, err) ==> RightCause(t, i, err)
    ensures ErrorsOk(env, t)
  {
    ListedGrows(s.errors, e);
  }

  lemma DrainErrorsInv(env: Env, s: State, t: State)
    requires env.Valid() && (s.disp.Drain? || s.disp.DrainCount?) && DispatchStep(env, s) == Some(t)
    requires DispatcherOk(env, s) && ErrorsOk(env, s)
    ensures ErrorsOk(env, t)
  {
    assert t.workers == s.workers && t.done == s.done;
    if s.disp.Drain? && s.disp.next < |env.texts| {
      ErrorAppended(env, s, t, t.errors[|s.errors|]);
    } else {
      assert forall i :: Reported(env, t, i) <==> Reported(env, s, i);
    }
  }

  lemma DrainCountersInv(env: Env, s: State, t: State)
    requires env.Valid() && (s.disp.Drain? || s.disp.DrainCount?) && DispatchStep(env, s) == Some(t)
    requires DispatcherOk(env, s) && CountersOk(env, s)
    ensures CountersOk(env, t)
  {
    var sum := Sum(s.workers);
    var n := sum.failed + Drained(env, s) - Bit(s.disp.DrainCount?);
    assert AtomicsOk(s, sum, Drained(env, s) - Bit(s.disp.DrainCount?));
    assert s.disp.DrainCount? ==> CounterAfter(n + 1) == Increment(CounterAfter(n));
    assert AtomicsOk(t, sum, Drained(env, t) - Bit(t.disp.DrainCount?));
  }

  lemma DrainInv(env: Env, s: State, t: State)
    requires env.Valid() && Inv(env, s) && (s.disp.Drain? || s.disp.DrainCount?) && DispatchStep(env, s) == Some(t)
    ensures Inv(env, t)
  {
    DrainErrorsInv(env, s, t);
    DrainCountersInv(env, s, t);
  }

  lemma LoopInv(env: Env, s: State, t: State)
    requires env.Valid() && DispatcherOk(env, s) && s.disp.Loop? && DispatchStep(env, s) == Some(t)
    ensures DispatcherOk(env, t)
  {
    var chunks := Chunks(env.texts, env.chunkSize);
    if s.disp.chunk < |chunks| {
      ChunkPosition(env, s.disp.chunk);
      if s.disp.chunk + 1 < |chunks| {
        ChunkPosition(env, s.disp.chunk + 1);
      }
    }
  }

  ghost predicate Quiet(d: Dispatcher) {
    d.Loop? || d.Acquire? || d.Register? || d.Wait?
  }

  lemma QuietErrorsInv(env: Env, s: State, t: State)
    requires env.Valid() && Quiet(s.disp) && DispatchStep(env, s) == Some(t)
    requires DispatcherOk(env, s) && ErrorsOk(env, s)
    ensures ErrorsOk(env, t) && Drained(env, t) == Drained(env, s)
  {
    assert t.workers == s.workers && t.errors == s.errors && t.done == s.done;
    assert Drained(env, t) == Drained(env, s) by {
      if s.disp.Loop? && s.disp.chunk < |Chunks(env.texts, env.chunkSize)| {
        ChunkPosition(env, s.disp.chunk);
      }
    }
    assert forall i :: Reported(env, t, i) <==> Reported(env, s, i);
  }

  lemma QuietDispatcherInv(env: Env, s: State, t: State)
    requires env.Valid() && Quiet(s.disp) && DispatchStep(env, s) == Some(t)
    requires DispatcherOk(env, s)
    ensures DispatcherOk(env, t)
  {
    if s.disp.Loop? {
      LoopInv(env, s, t);
    }
  }

  /** What a quiet step changes, apart from the dispatcher's position. */
  lemma QuietChanges(env: Env, s: State, t: State)
    requires env.Valid() && Quiet(s.disp) && DispatchStep(env, s) == Some(t)
    ensures t == s.(disp := t.disp, tokens := t.tokens, wg := t.wg)
    ensures t.tokens == s.tokens + Bit(s.disp.Acquire?) && t.wg == s.wg + Bit(s.disp.Register?)
    ensures s.disp.Acquire? ==> s.tokens < env.concurrency
    ensures t.disp.Register? <==> s.disp.Acquire?
    ensures t.disp.Spawn? <==> s.disp.Register?
    ensures !t.disp.DrainCount?
  {
  }

  lemma QuietCountersInv(env: Env, s: State, t: State)
    requires t == s.(disp := t.disp, tokens := t.tokens, wg := t.wg)
    requires t.tokens == s.tokens + Bit(s.disp.Acquire?) && t.wg == s.wg + Bit(s.disp.Register?)
    requires s.disp.Acquire? ==> s.tokens < env.concurrency
    requires Quiet(s.disp) && (t.disp.Register? <==> s.disp.Acquire?) && (t.disp.Spawn? <==> s.disp.Register?)
    requires !t.disp.DrainCount?
    requires CountersOk(env, s) && Drained(env, t) == Drained(env, s)
    ensures CountersOk(env, t)
  {
  }

  /** A dispatcher step that leaves the workers and the error list alone. */
  lemma QuietDispatchInv(env: Env, s: State, t: State)
    requires env.Valid() && Inv(env, s) && Quiet(s.disp) && DispatchStep(env, s) == Some(t)
    ensures Inv(env, t)
  {
    QuietChanges(env, s, t);
    QuietErrorsInv(env, s, t);
    QuietDispatcherInv(env, s, t);
    QuietCountersInv(env, s, t);
  }

  lemma DispatchInv(env: Env, s: State, t: State)
    requires env.Valid() && Inv(env, s) && DispatchStep(env, s) == Some(t)
    ensures Inv(env, t)
  {
    if s.disp.Spawn? {
      SpawnInv(env, s, t);
    } else if Quiet(s.disp) {
      QuietDispatchInv(env, s, t);
    } else {
      DrainInv(env, s, t);
    }
  }

  /** A worker step replaces that worker and nothing else of the worker list. */
  lemma WorkReplaces(env: Env, s: State, j: nat, reply: Reply, t: State)
    requires WorkersOk(env, s) && WorkStep(s, j, reply) == Some(t)
    ensures j < |s.workers| && |t.workers| == |s.workers| && t.workers == s.workers[j := t.workers[j]]
    ensures t.disp == s.disp && t.done == s.done
    ensures j < |env.texts| && WorkerOk(env, t.workers[j], j) && WorkersOk(env, t)
    ensures Rank(t.workers[j].pc) < Rank(s.workers[j].pc)
  {
  }

  function IncrementIf(counter: int, b: bool): int {
    if b then Increment(counter) else counter
  }

  /** How a step of worker `w` moves the tallies, from `a` to `b`. */
  ghost predicate TallyMoves(w: Worker, a: Tally, b: Tally) {
    && b.ok == a.ok + Bit(w.pc.Stored?)
    && b.failed == a.failed + Bit(w.pc.Answered? && IsFailed(w))
    && b.reported == a.reported + Bit(w.pc.FailCounted?)
    && b.processed == a.processed + Bit(w.pc.Settled?)
    && b.holding + Bit(w.pc.Processed?) == a.holding
    && b.live + Bit(w.pc.Released?) == a.live
    && b.rank < a.rank
  }

  /** How a step of worker `w` moves the shared counters. */
  ghost predicate CountersMove(w: Worker, s: State, t: State) {
    && t.succeeded == IncrementIf(s.succeeded, w.pc.Stored?)
    && t.failed == IncrementIf(s.failed, w.pc.Answered? && IsFailed(w))
    && t.processed == IncrementIf(s.processed, w.pc.Settled?)
    && t.tokens + Bit(w.pc.Processed?) == s.tokens
    && t.wg + Bit(w.pc.Released?) == s.wg
    && |t.errors| == |s.errors| + Bit(w.pc.FailCounted?)
    && t.disp == s.disp && |t.workers| == |s.workers|
  }

  lemma WorkTally(env: Env, s: State, j: nat, reply: Reply, t: State)
    requires WorkersOk(env, s) && WorkStep(s, j, reply) == Some(t)
    ensures j < |s.workers| && TallyMoves(s.workers[j], Sum(s.workers), Sum(t.workers))
  {
    WorkReplaces(env, s, j, reply, t);
    assert WorkerOk(env, s.workers[j], j);
    SumUpdate(s.workers, j, t.workers[j]);
  }

  lemma WorkChanges(env: Env, s: State, j: nat, reply: Reply, t: State)
    requires WorkersOk(env, s) && WorkStep(s, j, reply) == Some(t)
    ensures j < |s.workers| && CountersMove(s.workers[j], s, t)
  {
    assert WorkerOk(env, s.workers[j], j);
  }

  lemma CounterStep(n: nat, b: bool)
    ensures IncrementIf(CounterAfter(n), b) == CounterAfter(n + Bit(b))
  {
  }

  lemma AtomicsMove(w: Worker, s: State, t: State, a: Tally, b: Tally, drainCounted: nat)
    requires AtomicsOk(s, a, drainCounted) && TallyMoves(w, a, b) && CountersMove(w, s, t)
    ensures AtomicsOk(t, b, drainCounted)
  {
    CounterStep(a.ok, w.pc.Stored?);
    CounterStep(a.failed + drainCounted, w.pc.Answered? && IsFailed(w));
    CounterStep(a.processed, w.pc.Settled?);
  }

  lemma WorkCountersInv(env: Env, s: State, w: Worker, t: State)
    requires CountersOk(env, s) && TallyMoves(w, Sum(s.workers), Sum(t.workers)) && CountersMove(w, s, t)
    requires s.disp.DrainCount? ==> |s.workers| <= s.disp.next
    ensures CountersOk(env, t)
  {
    AtomicsMove(w, s, t, Sum(s.workers), Sum(t.workers), Drained(env, s) - Bit(s.disp.DrainCount?));
  }

  lemma WorkErrorsInv(env: Env, s: State, j: nat, reply: Reply, t: State)
    requires WorkersOk(env, s) && ErrorsOk(env, s) && WorkStep(s, j, reply) == Some(t)
    ensures ErrorsOk(env, t)
  {
    WorkReplaces(env, s, j, reply, t);
    var w := s.workers[j];
    assert WorkerOk(env, w, j);
    assert Drained(env, t) == Drained(env, s);
    if w.pc.FailCounted? {
      ErrorAppended(env, s, t, t.errors[|s.errors|]);
    } else {
      assert t.errors == s.errors;
      assert forall i :: Reported(env, t, i) <==> Reported(env, s, i);
    }
  }

  lemma WorkResultsInv(env: Env, s: State, j: nat, reply: Reply, t: State)
    requires WorkersOk(env, s) && ResultsOk(env, s) && WorkStep(s, j, reply) == Some(t)
    ensures ResultsOk(env, t)
  {
    WorkReplaces(env, s, j, reply, t);
    assert WorkerOk(env, s.workers[j], j);
  }

  lemma WorkInv(env: Env, s: State, j: nat, reply: Reply, t: State)
    requires env.Valid() && Inv(env, s) && WorkStep(s, j, reply) == Some(t)
    ensures Inv(env, t)
  {
    WorkReplaces(env, s, j, reply, t);
    WorkTally(env, s, j, reply, t);
    WorkChanges(env, s, j, reply, t);
    WorkCountersInv(env, s, s.workers[j], t);
    WorkErrorsInv(env, s, j, reply, t);
    WorkResultsInv(env, s, j, reply, t);
    SumCovers(s.workers, j);
  }

  lemma CancelInv(env: Env, s: State, a: Action, t: State)
    requires env.Valid() && Inv(env, s) && a.Cancel? && Next(env, s, a) == Some(t)
    ensures Inv(env, t)
  {
    assert t.workers == s.workers && t.errors == s.errors;
    assert forall i :: Reported(env, t, i) <==> Reported(env, s, i);
  }

  /** Every action keeps the invariant. */
  lemma NextInv(env: Env, s: State, a: Action, t: State)
    requires env.Valid() && Inv(env, s) && Next(env, s, a) == Some(t)
    ensures Inv(env, t)
  {
    hide Inv;
    match a
    case Dispatch => DispatchInv(env, s, t);
    case Work(j, reply) => WorkInv(env, s, j, reply, t);
    case Cancel(_) => CancelInv(env, s, a, t);
  }

  lemma {:induction false} ExecInv(env: Env, s: State, run: seq<Action>)
    requires env.Valid() && Inv(env, s) && Exec(env, s, run).Some?
    ensures Inv(env, Exec(env, s, run).value)
    decreases run
  {
    if run != [] {
      var t := Next(env, s, run[0]).value;
      NextInv(env, s, run[0], t);
      ExecInv(env, t, run[1..]);
    }
  }

  /** Every reachable state satisfies the invariant. */
  lemma ReachInv(env: Env, run: seq<Action>)
    requires env.Valid() && Reach(env, run).Some?
    ensures Inv(env, Reach(env, run).value)
  {
    InitInv(env);
    ExecInv(env, Init(env), run);
  }

  // ---------------------------------------------------------------- what every run keeps

  /** At every moment at most `concurrency` workers hold a slot. */
  lemma ConcurrencyBound(env: Env, run: seq<Action>)
    requires env.Valid() && Reach(env, run).Some?
    ensures |HolderSet(Reach(env, run).value.workers)| <= env.concurrency
  {
    ReachInv(env, run);
    HoldingCounts(Reach(env, run).value.workers);
  }

  /** A bound on the steps still to be taken. */
  function Measure(env: Env, s: State): nat
    requires env.Valid()
  {
    var total, chunks := |env.texts|, |Chunks(env.texts, env.chunkSize)|;
    var left := if total >= |s.workers| then total - |s.workers| else 0;
    Sum(s.workers).rank + Bit(s.done.None?) +
    match s.disp
    case Loop(c, _) => 12 * left + (if chunks >= c then chunks - c else 0) + 4
    case Acquire(c, _) => 12 * left + (if chunks >= c then chunks - c else 0) + 3
    case Register(c, _) => 12 * left + (if chunks >= c then chunks - c else 0) + 2
    case Spawn(c, _) => 12 * left + (if chunks >= c then chunks - c else 0) + 1
    case Drain(i) => (if total >= i then 2 * (total - i) else 0) + 2
    case DrainCount(i) => (if total >= i then 2 * (total - i) else 0) + 1
    case Wait => 1
    case Returned(_) => 0
  }

  lemma DispatchDecreases(env: Env, s: State, t: State)
    requires env.Valid() && WorkersOk(env, s) && DispatcherOk(env, s) && DispatchStep(env, s) == Some(t)
    ensures Measure(env, t) < Measure(env, s)
  {
    if s.disp.Spawn? {
      SpawnDispatcherInv(env, s, t);
      assert Sum(t.workers).rank == Sum(s.workers).rank + 6;
    } else if s.disp.Drain? || s.disp.DrainCount? || s.disp.Wait? {
    } else {
      assert t.workers == s.workers && t.done == s.done;
    }
  }

  /** Every action brings the run closer to its end. */
  lemma NextDecreases(env: Env, s: State, a: Action, t: State)
    requires env.Valid() && Inv(env, s) && Next(env, s, a) == Some(t)
    ensures Measure(env, t) < Measure(env, s)
  {
    match a
    case Dispatch => DispatchDecreases(env, s, t);
    case Work(j, reply) =>
      WorkReplaces(env, s, j, reply, t);
      WorkTally(env, s, j, reply, t);
    case Cancel(_) =>
  }

  lemma {:induction false} ExecIsBounded(env: Env, s: State, run: seq<Action>)
    requires env.Valid() && Inv(env, s) && Exec(env, s, run).Some?
    ensures |run| + Measure(env, Exec(env, s, run).value) <= Measure(env, s)
    decreases run
  {
    if run != [] {
      var t := Next(env, s, run[0]).value;
      NextInv(env, s, run[0], t);
      NextDecreases(env, s, run[0], t);
      ExecIsBounded(env, t, run[1..]);
    }
  }

  /** Every run is finite: its length is bounded by the measure of the initial state. */
  lemma RunsAreBounded(env: Env, run: seq<Action>)
    requires env.Valid() && Reach(env, run).Some?
    ensures |run| <= Measure(env, Init(env))
  {
    InitInv(env);
    ExecIsBounded(env, Init(env), run);
  }

  /** A dispatcher that cannot step is waiting for a worker, and that worker can step. */
  lemma BlockedMeansWorking(env: Env, s: State) returns (j: nat)
    requires env.Valid() && Inv(env, s) && !s.disp.Returned? && DispatchStep(env, s).None?
    ensures forall reply :: WorkStep(s, j, reply).Some?
  {
    if s.disp.Acquire? {
      j := SomeoneHolds(s.workers);
    } else {
      assert s.disp.Wait?;
      j := SomeoneLives(s.workers);
    }
    WorkerCanStep(env, s, j);
  }

  lemma WorkerCanStep(env: Env, s: State, j: nat)
    requires WorkersOk(env, s) && CountersOk(env, s) && ResultsOk(env, s)
    requires j < |s.workers| && s.workers[j].pc != Exited
    ensures forall reply :: WorkStep(s, j, reply).Some?
  {
    assert WorkerOk(env, s.workers[j], j);
    SumCovers(s.workers, j);
  }

  /** Some action other than a cancellation is possible until `Process` has returned. */
  lemma SomethingCanHappen(env: Env, s: State) returns (a: Action)
    requires env.Valid() && Inv(env, s) && !s.disp.Returned?
    ensures !a.Cancel? && Next(env, s, a).Some?
  {
    a := Dispatch;
    if DispatchStep(env, s).None? {
      var j := BlockedMeansWorking(env, s);
      a := Work(j, Reply.Failed(Cancelled));
    }
  }

  lemma {:induction false} ExecConcat(env: Env, s: State, first: seq<Action>, rest: seq<Action>)
    requires env.Valid() && Exec(env, s, first).Some?
    ensures Exec(env, s, first + rest) == Exec(env, Exec(env, s, first).value, rest)
    decreases first
  {
    if first == [] {
      assert first + rest == rest;
    } else {
      ExecConcat(env, Next(env, s, first[0]).value, first[1..], rest);
      assert (first + rest)[1..] == first[1..] + rest;
    }
  }

  lemma {:induction false} CanReturn(env: Env, s: State) returns (rest: seq<Action>)
    requires env.Valid() && Inv(env, s)
    ensures Exec(env, s, rest).Some? && Exec(env, s, rest).value.disp.Returned?
    decreases Measure(env, s)
  {
    rest := [];
    if !s.disp.Returned? {
      var a := SomethingCanHappen(env, s);
      var t := Next(env, s, a).value;
      NextInv(env, s, a, t);
      NextDecreases(env, s, a, t);
      var more := CanReturn(env, t);
      rest := [a] + more;
      assert rest[1..] == more;
    }
  }

  /** No reachable state is stuck: every run can be carried on until `Process` returns. */
  lemma EveryRunCanReturn(env: Env, run: seq<Action>) returns (rest: seq<Action>)
    requires env.Valid() && Reach(env, run).Some?
    ensures Reach(env, run + rest).Some? && Reach(env, run + rest).value.disp.Returned?
  {
    ReachInv(env, run);
    rest := CanReturn(env, Reach(env, run).value);
    ExecConcat(env, Init(env), run, rest);
  }

  // ---------------------------------------------------------------- what Process returns

  /** Index `i` was settled exactly once: either its embedding is in place and no error names it, or
      exactly one error names it, with its text and its cause, and its slot is still nil. */
  ghost predicate SettledOnce(env: Env, s: State, r: BatchResult, i: nat)
    requires i < |env.texts| == |r.embeddings|
  {
    if Listed(r.errors, i) then
      && r.embeddings[i] == None
      && exists k :: 0 <= k < |r.errors| && r.errors[k].index == i && r.errors[k].text == env.texts[i]
                     && RightCause(s, i, r.errors[k].err)
    else
      && i < |s.workers| && s.workers[i].text == env.texts[i]
      && s.workers[i].reply == Some(Embedded(r.embeddings[i]))
  }

  /** When `Process` returns, in every interleaving: every index was settled exactly once, no index is
      named by two errors, and the counters report those two numbers as 32-bit counters do. */
  lemma ProcessAccounting(env: Env, run: seq<Action>)
    requires env.Valid() && Reach(env, run).Some? && Reach(env, run).value.disp.Returned?
    ensures var s := Reach(env, run).value;
            var r := s.disp.result;
            && r.total == |env.texts| == |r.embeddings|
            && Distinct(r.errors) && |r.errors| <= r.total
            && (forall k :: 0 <= k < |r.errors| ==> r.errors[k].index < r.total)
            && (forall i: nat :: i < r.total ==> SettledOnce(env, s, r, i))
            && r.succeeded == CounterAfter(r.total - |r.errors|)
            && r.failed == CounterAfter(|r.errors|)
  {
    var s := Reach(env, run).value;
    ReachInv(env, run);
    ReturnedWorkers(env, s);
    ReturnedCounts(env, s);
    forall i: nat | i < |env.texts|
      ensures SettledOnce(env, s, s.disp.result, i)
    {
      IndexSettledOnce(env, s, i);
    }
  }

  lemma ReturnedCounts(env: Env, s: State)
    requires s.disp.Returned? && CountersOk(env, s) && |s.workers| <= |env.texts|
    requires forall j :: 0 <= j < |s.workers| ==> s.workers[j].pc.Exited? && s.workers[j].reply.Some?
    ensures |s.errors| <= |env.texts|
    ensures s.succeeded == CounterAfter(|env.texts| - |s.errors|) && s.failed == CounterAfter(|s.errors|)
  {
    SumExited(s.workers);
  }

  lemma IndexSettledOnce(env: Env, s: State, i: nat)
    requires env.Valid() && WorkersOk(env, s) && DispatcherOk(env, s) && ResultsOk(env, s) && ErrorsOk(env, s)
    requires s.disp.Returned? && i < |env.texts|
    requires forall j :: 0 <= j < |s.workers| ==> s.workers[j].pc.Exited? && s.workers[j].reply.Some?
    ensures |s.disp.result.embeddings| == |env.texts|
    ensures SettledOnce(env, s, s.disp.result, i)
  {
    var r := s.disp.result;
    assert r.embeddings[i] == s.results[i];
    if i < |s.workers| {
      assert WorkerOk(env, s.workers[i], i);
    }
    assert Listed(r.errors, i) <==> Reported(env, s, i);
  }

  /** Once the wait group is empty every worker has exited. */
  lemma ReturnedWorkers(env: Env, s: State)
    requires env.Valid() && Inv(env, s) && s.disp.Returned?
    ensures forall j :: 0 <= j < |s.workers| ==> s.workers[j].pc.Exited? && s.workers[j].reply.Some?
  {
    forall j | 0 <= j < |s.workers|
      ensures s.workers[j].pc.Exited? && s.workers[j].reply.Some?
    {
      SumCovers(s.workers, j);
      assert WorkerOk(env, s.workers[j], j);
    }
  }

  /** The semaphore is empty when `Process` returns, and the progress counter shows the spawned workers:
      texts drained after a cancellation are not in it. */
  lemma SemaphoreEmptyAtReturn(env: Env, run: seq<Action>)
    requires env.Valid() && Reach(env, run).Some? && Reach(env, run).value.disp.Returned?
    ensures var s := Reach(env, run).value;
            && s.tokens == 0 && s.wg == 0
            && s.processed == CounterAfter(|s.workers|)
            && (s.done.None? ==> |s.workers| == |env.texts|)
  {
    var s := Reach(env, run).value;
    ReachInv(env, run);
    ReturnedWorkers(env, s);
    SumExited(s.workers);
  }

  /** `Succeeded + Failed = Total` and `len(Errors) = Failed` hold in the returned result exactly when
      both counts fit in 31 bits; in particular for every list of fewer than 2^31 texts. */
  lemma CountsAddUp(env: Env, run: seq<Action>)
    requires env.Valid() && Reach(env, run).Some? && Reach(env, run).value.disp.Returned?
    ensures var r := Reach(env, run).value.disp.result;
            && (r.succeeded + r.failed == r.total && r.failed == |r.errors| <==>
                |r.errors| < 0x8000_0000 && r.total - |r.errors| < 0x8000_0000)
            && (r.total < 0x8000_0000 ==> r.succeeded + r.failed == r.total && r.failed == |r.errors|)
  {
    ProcessAccounting(env, run);
    var r := Reach(env, run).value.disp.result;
    CounterIsTwosComplement(|r.errors|);
    CounterIsTwosComplement(r.total - |r.errors|);
  }

  // ---------------------------------------------------------------- cancellation

  /** The dispatcher has already decided to start one more text. */
  function Committed(d: Dispatcher): nat {
    if d.Acquire? || d.Register? || d.Spawn? then 1 else 0
  }

  lemma CancelledNext(env: Env, s: State, a: Action, t: State)
    requires env.Valid() && s.done.Some? && Next(env, s, a) == Some(t)
    ensures t.done == s.done
    ensures |s.workers| <= |t.workers| && |t.workers| + Committed(t.disp) <= |s.workers| + Committed(s.disp)
  {
  }

  lemma {:induction false} CancelledExec(env: Env, s: State, rest: seq<Action>)
    requires env.Valid() && s.done.Some? && Exec(env, s, rest).Some?
    ensures var t := Exec(env, s, rest).value;
            && t.done == s.done
            && |s.workers| <= |t.workers| && |t.workers| + Committed(t.disp) <= |s.workers| + Committed(s.disp)
    decreases rest
  {
    if rest != [] {
      var t := Next(env, s, rest[0]).value;
      CancelledNext(env, s, rest[0], t);
      hide Next;
      CancelledExec(env, t, rest[1..]);
    }
  }

  /** Index `i` is in the error list with this error, its slot is nil, and nobody was asked for it. */
  ghost predicate NotStarted(env: Env, s: State, i: nat, err: Failure) {
    && s.disp.Returned? && |s.workers| <= i < |env.texts|
    && i < |s.disp.result.embeddings| && s.disp.result.embeddings[i] == None
    && exists k :: 0 <= k < |s.disp.result.errors| && s.disp.result.errors[k] == BatchError(i, env.texts[i], err)
  }

  /** Once the context is done, at most the text that the dispatcher is about to start is still started, in
      every run; and when `Process` returns, every later one is in the error list with the context's error. */
  lemma CancellationStops(env: Env, before: seq<Action>, rest: seq<Action>)
    requires env.Valid() && Reach(env, before).Some? && Reach(env, before).value.done.Some?
    requires Exec(env, Reach(env, before).value, rest).Some?
    ensures var s, t := Reach(env, before).value, Exec(env, Reach(env, before).value, rest).value;
            && |t.workers| <= |s.workers| + Committed(s.disp)
            && (t.disp.Returned? ==> forall i :: |t.workers| <= i < |env.texts| ==> NotStarted(env, t, i, s.done.value))
  {
    var s, t := Reach(env, before).value, Exec(env, Reach(env, before).value, rest).value;
    CancelledExec(env, s, rest);
    ExecConcat(env, Init(env), before, rest);
    if t.disp.Returned? {
      ProcessAccounting(env, before + rest);
      hide Exec, Reach;
      var r := t.disp.result;
      forall i | |t.workers| <= i < |env.texts|
        ensures NotStarted(env, t, i, s.done.value)
      {
        assert SettledOnce(env, t, r, i);
        var k :| 0 <= k < |r.errors| && r.errors[k].index == i && r.errors[k].text == env.texts[i]
                 && RightCause(t, i, r.errors[k].err);
        assert r.errors[k] == BatchError(i, env.texts[i], s.done.value);
      }
    }
  }

  /** And as long as it is not done, every text is started, in order, before `Process` returns. */
  lemma AllAreStarted(env: Env, run: seq<Action>)
    requires env.Valid() && Reach(env, run).Some? && Reach(env, run).value.disp.Returned?
    requires Reach(env, run).value.done.None?
    ensures var s := Reach(env, run).value;
            |s.workers| == |env.texts| && forall j :: 0 <= j < |s.workers| ==> s.workers[j].text == env.texts[j]
  {
    SemaphoreEmptyAtReturn(env, run);
    ReachInv(env, run);
    var s := Reach(env, run).value;
    forall j | 0 <= j < |s.workers|
      ensures s.workers[j].text == env.texts[j]
    {
      assert WorkerOk(env, s.workers[j], j);
    }
  }
}
