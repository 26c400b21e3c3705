/**
 `Process` of pkg/embedding/batch.go together with the manager of pkg/embedding/manager.go that its workers
 call: one step system whose steps are those of the batch, those of the manager, and the calls and returns
 of `processWithRetry` between them. The manager may serve other callers at the same time.
 */
module BatchWithManager {
  import opened BatchSequential
  import opened EmbedManager
  import opened EmbedTypes
  import opened Wrappers
  import B = BatchEmbedder
  import C = EmbedConcurrent

  datatype Setup = Setup(env: B.Env, cfg: C.Config, maxRetries: nat) {
    ghost predicate Valid() {
      env.Valid() && cfg.Valid()
    }
  }

  /** `asked[j]` are the calls of `Embed` that worker `j` has made, in order. */
  datatype State = State(batch: B.State, manager: C.State, asked: seq<seq<nat>>)

  datatype Action =
    | Batch(batch: B.Action)
    | Manager(manager: C.Action)
    | Call(worker: nat)
    | Return(worker: nat, interrupted: Option<Failure>)

  /** The context's error, if it is done, or nothing. */
  predicate FromContext(interrupted: Option<Failure>, done: Option<Failure>) {
    interrupted.None? || interrupted == done
  }

  function Init(p: Setup): State {
    State(B.Init(p.env), C.Init(), [])
  }

  /** The call has returned a failure. */
  predicate FailedCall(m: C.State, id: nat) {
    id < |m.calls| && m.calls[id].pc.Returned? && m.calls[id].pc.reply.Failed?
  }

  predicate AllReturned(m: C.State, ids: seq<nat>) {
    forall k :: 0 <= k < |ids| ==> ids[k] < |m.calls| && m.calls[ids[k]].pc.Returned?
  }

  function Replies(m: C.State, ids: seq<nat>): (r: seq<Reply>)
    requires AllReturned(m, ids)
    ensures |r| == |ids| && forall k :: 0 <= k < |ids| ==> r[k] == m.calls[ids[k]].pc.reply
  {
    seq(|ids|, k requires 0 <= k < |ids| => m.calls[ids[k]].pc.reply)
  }

  /** A worker that is in `processWithRetry`. */
  predicate Retrying(s: State, j: nat) {
    j < |s.batch.workers| == |s.asked| && s.batch.workers[j].pc.Calling?
  }

  ghost function Next(p: Setup, s: State, a: Action): Option<State>
    requires p.Valid()
  {
    match a
    case Batch(b) =>
      if b.Work? && Retrying(s, b.worker) then None else (
        match B.Next(p.env, s.batch, b)
        case None => None
        case Some(t) =>
          Some(s.(batch := t, asked := if |t.workers| > |s.batch.workers| then s.asked + [[]] else s.asked)))
    case Manager(c) =>
      (match C.Next(p.cfg, s.manager, c)
       case None => None
       case Some(n) => Some(s.(manager := n)))
    case Call(j) =>
      if !Retrying(s, j) then None else
        var ids := s.asked[j];
        if ids != [] && !(|ids| <= p.maxRetries && FailedCall(s.manager, ids[|ids| - 1])) then None else (
          match C.Next(p.cfg, s.manager, C.Arrive(s.batch.workers[j].text))
          case None => None
          case Some(n) => Some(s.(manager := n, asked := s.asked[j := ids + [|s.manager.calls|]])))
    case Return(j, interrupted) =>
      if !Retrying(s, j) || !AllReturned(s.manager, s.asked[j]) || !FromContext(interrupted, s.batch.done) then None else (
        match RetryReply(p.maxRetries, Replies(s.manager, s.asked[j]), interrupted)
        case None => None
        case Some(reply) =>
          match B.Next(p.env, s.batch, B.Work(j, reply))
          case None => None
          case Some(t) => Some(s.(batch := t)))
  }

  ghost function Run(p: Setup, s: State, run: seq<Action>): Option<State>
    requires p.Valid()
    decreases run
  {
    if run == [] then Some(s) else
      match Next(p, s, run[0])
      case None => None
      case Some(t) => Run(p, t, run[1..])
  }

  // ---------------------------------------------------------------- what every step keeps

  /** The calls a worker has made are for its text, one after the other, and all but the last have failed. */
  ghost predicate AskedOk(p: Setup, m: C.State, ids: seq<nat>, text: string) {
    && |ids| <= p.maxRetries + 1
    && (forall k, l :: 0 <= k < l < |ids| ==> ids[k] < ids[l])
    && (forall k :: 0 <= k < |ids| ==> ids[k] < |m.calls| && m.calls[ids[k]].text == text)
    && (forall k :: 0 <= k < |ids| - 1 ==> FailedCall(m, ids[k]))
  }

  /** What a worker has got is what `processWithRetry` makes of the replies to its calls. */
  ghost predicate RepliedOk(p: Setup, m: C.State, ids: seq<nat>, reply: Option<Reply>, done: Option<Failure>) {
    reply.Some? ==>
      && AllReturned(m, ids)
      && exists i :: FromContext(i, done) && RetryReply(p.maxRetries, Replies(m, ids), i) == reply
  }

  ghost predicate WorkersOk(p: Setup, s: State) {
    && |s.asked| == |s.batch.workers|
    && forall j :: 0 <= j < |s.asked| ==>
         && AskedOk(p, s.manager, s.asked[j], s.batch.workers[j].text)
         && RepliedOk(p, s.manager, s.asked[j], s.batch.workers[j].reply, s.batch.done)
  }

  ghost predicate Inv(p: Setup, s: State)
    requires p.Valid()
  {
    B.Inv(p.env, s.batch) && C.Inv(p.cfg, s.manager) && WorkersOk(p, s)
  }

  /** A call that has returned stays as it is, and so does the text of every call. */
  ghost predicate CallsStay(m: C.State, n: C.State) {
    && |m.calls| <= |n.calls|
    && forall c :: 0 <= c < |m.calls| ==>
         n.calls[c].text == m.calls[c].text && (m.calls[c].pc.Returned? ==> n.calls[c] == m.calls[c])
  }

  lemma ManagerStays(cfg: C.Config, m: C.State, a: C.Action, n: C.State)
    requires cfg.Valid() && C.Next(cfg, m, a) == Some(n)
    ensures CallsStay(m, n)
  {
  }

  lemma AskedStay(p: Setup, m: C.State, n: C.State, ids: seq<nat>, text: string, reply: Option<Reply>,
                  done: Option<Failure>)
    requires CallsStay(m, n) && AskedOk(p, m, ids, text) && RepliedOk(p, m, ids, reply, done)
    ensures AskedOk(p, n, ids, text) && RepliedOk(p, n, ids, reply, done)
  {
    hide RetryReply;
    if reply.Some? {
      assert Replies(n, ids) == Replies(m, ids);
    }
  }

  lemma ManagerKeeps(p: Setup, s: State, n: C.State)
    requires WorkersOk(p, s) && CallsStay(s.manager, n)
    ensures WorkersOk(p, s.(manager := n))
  {
    hide CallsStay, AskedOk, RepliedOk;
    forall j | 0 <= j < |s.asked|
      ensures AskedOk(p, n, s.asked[j], s.batch.workers[j].text)
      ensures RepliedOk(p, n, s.asked[j], s.batch.workers[j].reply, s.batch.done)
    {
      AskedStay(p, s.manager, n, s.asked[j], s.batch.workers[j].text, s.batch.workers[j].reply, s.batch.done);
    }
  }

  /** Outside of `processWithRetry` no worker gets a reply or another text. */
  lemma BatchStays(env: B.Env, s: B.State, b: B.Action, t: B.State)
    requires env.Valid() && B.Next(env, s, b) == Some(t)
    requires b.Work? ==> b.worker >= |s.workers| || !s.workers[b.worker].pc.Calling?
    ensures |s.workers| <= |t.workers| <= |s.workers| + 1
    ensures forall j :: 0 <= j < |s.workers| ==>
              t.workers[j].text == s.workers[j].text && t.workers[j].reply == s.workers[j].reply
    ensures |t.workers| > |s.workers| ==> t.workers[|s.workers|].reply == None
    ensures s.done.Some? ==> t.done == s.done
  {
  }

  lemma BatchKeeps(p: Setup, s: State, b: B.Action, t: State)
    requires p.Valid() && Inv(p, s) && Next(p, s, Batch(b)) == Some(t)
    ensures Inv(p, t)
  {
    hide B.Inv, C.Inv, B.Next, AskedOk, RepliedOk;
    B.NextInv(p.env, s.batch, b, t.batch);
    BatchStays(p.env, s.batch, b, t.batch);
    NothingAsked(p, s.manager, t.batch.done);
    forall j | 0 <= j < |s.asked|
      ensures RepliedOk(p, s.manager, s.asked[j], s.batch.workers[j].reply, t.batch.done)
    {
      DoneLater(p, s.manager, s.asked[j], s.batch.workers[j].reply, s.batch.done, t.batch.done);
    }
  }

  lemma DoneLater(p: Setup, m: C.State, ids: seq<nat>, reply: Option<Reply>, done: Option<Failure>, later: Option<Failure>)
    requires RepliedOk(p, m, ids, reply, done) && (done.Some? ==> later == done)
    ensures RepliedOk(p, m, ids, reply, later)
  {
    hide RetryReply;
  }

  lemma NothingAsked(p: Setup, m: C.State, done: Option<Failure>)
    ensures forall text :: AskedOk(p, m, [], text)
    ensures RepliedOk(p, m, [], None, done)
  {
  }

  lemma CallKeeps(p: Setup, s: State, j: nat, t: State)
    requires p.Valid() && Inv(p, s) && Next(p, s, Call(j)) == Some(t)
    ensures Inv(p, t)
  {
    hide B.Inv, C.Inv;
    var a, ids := C.Arrive(s.batch.workers[j].text), s.asked[j];
    C.NextKeeps(p.cfg, s.manager, a, t.manager);
    ManagerStays(p.cfg, s.manager, a, t.manager);
    ManagerKeeps(p, s, t.manager);
    OneMoreAsked(p, s, j, t);
  }

  lemma OneMoreAsked(p: Setup, s: State, j: nat, t: State)
    requires p.Valid() && Inv(p, s) && Next(p, s, Call(j)) == Some(t) && WorkersOk(p, s.(manager := t.manager))
    requires CallsStay(s.manager, t.manager)
    ensures WorkersOk(p, t)
  {
    hide C.Inv;
    assert s.batch.workers[j].reply.None? by {
      assert B.WorkerOk(p.env, s.batch.workers[j], j);
    }
    hide B.Inv, RepliedOk, AskedOk;
    var ids, text := s.asked[j], s.batch.workers[j].text;
    assert AskedOk(p, s.manager, ids, text) && AskedOk(p, t.manager, ids, text);
    AskedMore(p, s.manager, t.manager, ids, text, |s.manager.calls|);
    NotReplied(p, t.manager, t.asked[j], t.batch.done);
  }

  lemma AskedMore(p: Setup, m: C.State, n: C.State, ids: seq<nat>, text: string, id: nat)
    requires AskedOk(p, m, ids, text) && AskedOk(p, n, ids, text) && CallsStay(m, n)
    requires |ids| <= p.maxRetries && (ids != [] ==> FailedCall(m, ids[|ids| - 1]))
    requires id == |m.calls| < |n.calls| && n.calls[id].text == text
    ensures AskedOk(p, n, ids + [id], text)
  {
    var more := ids + [id];
    forall k | 0 <= k < |more| - 1
      ensures FailedCall(n, more[k])
    {
      assert more[k] == ids[k];
    }
  }

  lemma NotReplied(p: Setup, m: C.State, ids: seq<nat>, done: Option<Failure>)
    ensures RepliedOk(p, m, ids, None, done)
  {
  }

  lemma ReturnKeeps(p: Setup, s: State, j: nat, interrupted: Option<Failure>, t: State)
    requires p.Valid() && Inv(p, s) && Next(p, s, Return(j, interrupted)) == Some(t)
    ensures Inv(p, t)
  {
    hide B.Inv, C.Inv, AskedOk, RepliedOk, RetryReply, Replies;
    var reply := RetryReply(p.maxRetries, Replies(s.manager, s.asked[j]), interrupted).value;
    B.NextInv(p.env, s.batch, B.Work(j, reply), t.batch);
    assert t.batch.workers == s.batch.workers[j := s.batch.workers[j].(pc := B.Answered, reply := Some(reply))];
    HasReplied(p, s.manager, s.asked[j], interrupted, s.batch.done, reply);
  }

  lemma HasReplied(p: Setup, m: C.State, ids: seq<nat>, interrupted: Option<Failure>, done: Option<Failure>, reply: Reply)
    requires AllReturned(m, ids) && FromContext(interrupted, done)
    requires RetryReply(p.maxRetries, Replies(m, ids), interrupted) == Some(reply)
    ensures RepliedOk(p, m, ids, Some(reply), done)
  {
    hide RetryReply;
  }

  /** Every step keeps the invariant. */
  lemma NextKeeps(p: Setup, s: State, a: Action, t: State)
    requires p.Valid() && Inv(p, s) && Next(p, s, a) == Some(t)
    ensures Inv(p, t)
  {
    match a
    case Batch(b) => BatchKeeps(p, s, b, t);
    case Call(j) => CallKeeps(p, s, j, t);
    case Return(j, interrupted) => ReturnKeeps(p, s, j, interrupted, t);
    case Manager(c) =>
      hide B.Inv, C.Inv, WorkersOk;
      C.NextKeeps(p.cfg, s.manager, c, t.manager);
      ManagerStays(p.cfg, s.manager, c, t.manager);
      ManagerKeeps(p, s, t.manager);
  }

  lemma {:induction false} RunKeeps(p: Setup, s: State, run: seq<Action>)
    requires p.Valid() && Inv(p, s) && Run(p, s, run).Some?
    ensures Inv(p, Run(p, s, run).value)
    decreases run
  {
    if run != [] {
      hide Inv;
      NextKeeps(p, s, run[0], Next(p, s, run[0]).value);
      RunKeeps(p, Next(p, s, run[0]).value, run[1..]);
    }
  }

  // ---------------------------------------------------------------- what Process returns

  /** The call was for this text, and every provider failed it. */
  ghost predicate GivenUp(cfg: C.Config, m: C.State, id: nat, text: string) {
    FailedCall(m, id) && m.calls[id].text == text && forall q: nat :: q < cfg.providers ==> C.Failing(m.answers, text, q)
  }

  /** The error of an index: the context's, which is done, or that all attempts were made, one after the
      other, and every provider failed in each. */
  ghost predicate FailedForGood(p: Setup, s: State, i: nat, text: string, err: Failure) {
    || s.batch.done == Some(err)
    || (&& err.AfterRetries? && err.retries == p.maxRetries
        && i < |s.asked| && |s.asked[i]| == p.maxRetries + 1
        && (forall k, l :: 0 <= k < l < |s.asked[i]| ==> s.asked[i][k] < s.asked[i][l])
        && (forall k :: 0 <= k < |s.asked[i]| ==> GivenUp(p.cfg, s.manager, s.asked[i][k], text)))
  }

  /** An index that no error names holds a vector that some provider returned for exactly its text; any
      other one has one error, with its text and a true cause. */
  ghost predicate SettledTruly(p: Setup, s: State, r: B.BatchResult, i: nat)
    requires i < |p.env.texts| == |r.embeddings|
  {
    var text := p.env.texts[i];
    if B.Listed(r.errors, i) then
      exists k :: 0 <= k < |r.errors| && r.errors[k].index == i && r.errors[k].text == text
                  && FailedForGood(p, s, i, text, r.errors[k].err)
    else C.Genuine(p.cfg, s.manager.answers, text, r.embeddings[i])
  }

  lemma GivesUp(p: Setup, s: State, id: nat)
    requires p.Valid() && C.Inv(p.cfg, s.manager) && FailedCall(s.manager, id)
    ensures GivenUp(p.cfg, s.manager, id, s.manager.calls[id].text)
  {
    var c := s.manager.calls[id];
    assert c in s.manager.calls && C.CallOk(p.cfg, s.manager.answers, c);
    forall q: nat | q < p.cfg.providers
      ensures C.Failing(s.manager.answers, c.text, q)
    {
      RotationCovers(c.start, p.cfg.providers, q);
    }
  }

  /** A worker that has failed has done so for good. */
  lemma WorkerFailed(p: Setup, s: State, i: nat, err: Failure)
    requires p.Valid() && Inv(p, s) && i < |s.asked| == |s.batch.workers|
    requires s.batch.workers[i].reply == Some(Reply.Failed(err))
    ensures FailedForGood(p, s, i, s.batch.workers[i].text, err)
  {
    hide B.Inv, C.Inv, GivenUp;
    var ids, text := s.asked[i], s.batch.workers[i].text;
    assert AskedOk(p, s.manager, ids, text) && RepliedOk(p, s.manager, ids, Some(Reply.Failed(err)), s.batch.done);
    var interrupted :| FromContext(interrupted, s.batch.done)
      && RetryReply(p.maxRetries, Replies(s.manager, ids), interrupted) == Some(Reply.Failed(err));
    if s.batch.done != Some(err) {
      assert |ids| == p.maxRetries + 1 && err.AfterRetries? && err.retries == p.maxRetries;
      forall k | 0 <= k < |ids|
        ensures GivenUp(p.cfg, s.manager, ids[k], text)
      {
        assert FailedCall(s.manager, ids[k]);
        GivesUp(p, s, ids[k]);
      }
    }
  }

  /** A worker that has a vector has one that a provider gave for its text. */
  lemma WorkerEmbedded(p: Setup, s: State, i: nat, v: Embedding)
    requires p.Valid() && Inv(p, s) && i < |s.asked| == |s.batch.workers|
    requires s.batch.workers[i].reply == Some(Embedded(v))
    ensures C.Genuine(p.cfg, s.manager.answers, s.batch.workers[i].text, v)
  {
    hide B.Inv;
    var ids, text := s.asked[i], s.batch.workers[i].text;
    assert AskedOk(p, s.manager, ids, text) && RepliedOk(p, s.manager, ids, Some(Embedded(v)), s.batch.done);
    var interrupted :| FromContext(interrupted, s.batch.done)
      && RetryReply(p.maxRetries, Replies(s.manager, ids), interrupted) == Some(Embedded(v));
    var c := s.manager.calls[ids[|ids| - 1]];
    assert c in s.manager.calls && C.CallOk(p.cfg, s.manager.answers, c);
  }

  /** End to end: when `Process` returns, in every interleaving of its own steps and the manager's, each index
      is settled truly. */
  lemma EndToEnd(p: Setup, run: seq<Action>, i: nat)
    requires p.Valid() && Run(p, Init(p), run).Some? && Run(p, Init(p), run).value.batch.disp.Returned?
    requires i < |p.env.texts|
    ensures var s := Run(p, Init(p), run).value;
            |s.batch.disp.result.embeddings| == |p.env.texts| && SettledTruly(p, s, s.batch.disp.result, i)
  {
    InitKeeps(p);
    RunKeeps(p, Init(p), run);
    SettlesTruly(p, Run(p, Init(p), run).value, i);
  }

  lemma InitKeeps(p: Setup)
    requires p.Valid()
    ensures Inv(p, Init(p))
  {
    B.InitInv(p.env);
    hide B.Inv;
  }

  lemma SettlesTruly(p: Setup, s: State, i: nat)
    requires p.Valid() && Inv(p, s) && s.batch.disp.Returned? && i < |p.env.texts|
    ensures |s.batch.disp.result.embeddings| == |p.env.texts|
    ensures SettledTruly(p, s, s.batch.disp.result, i)
  {
    var b := s.batch;
    var r := b.disp.result;
    B.ReturnedWorkers(p.env, b);
    B.IndexSettledOnce(p.env, b, i);
    hide B.Inv, C.Inv, FailedForGood;
    if B.Listed(r.errors, i) {
      var k :| 0 <= k < |r.errors| && r.errors[k].index == i && r.errors[k].text == p.env.texts[i]
               && B.RightCause(b, i, r.errors[k].err);
      if i < |b.workers| {
        WorkerFailed(p, s, i, r.errors[k].err);
        WorkerText(p, s, i);
      } else {
        ContextFails(p, s, i, p.env.texts[i], r.errors[k].err);
      }
    } else {
      WorkerEmbedded(p, s, i, r.embeddings[i]);
    }
  }

  lemma WorkerText(p: Setup, s: State, i: nat)
    requires p.Valid() && Inv(p, s) && i < |s.batch.workers|
    ensures i < |p.env.texts| && s.batch.workers[i].text == p.env.texts[i]
  {
    assert B.WorkerOk(p.env, s.batch.workers[i], i);
  }

  lemma ContextFails(p: Setup, s: State, i: nat, text: string, err: Failure)
    requires s.batch.done == Some(err)
    ensures FailedForGood(p, s, i, text, err)
  {
  }

  // ---------------------------------------------------------------- that it returns

  lemma {:induction false} RunConcat(p: Setup, s: State, first: seq<Action>, rest: seq<Action>)
    requires p.Valid() && Run(p, s, first).Some?
    ensures Run(p, s, first + rest) == Run(p, Run(p, s, first).value, rest)
    decreases first
  {
    hide Next;
    if first == [] {
      assert first + rest == rest;
    } else {
      var t, all := Next(p, s, first[0]).value, first + rest;
      assert all[0] == first[0] && all[1..] == first[1..] + rest;
      assert Run(p, s, all) == Run(p, t, all[1..]) && Run(p, s, first) == Run(p, t, first[1..]);
      hide Run;
      RunConcat(p, t, first[1..], rest);
    }
  }

  lemma RunOne(p: Setup, s: State, a: Action)
    requires p.Valid()
    ensures Run(p, s, [a]) == Next(p, s, a)
  {
    hide Next;
    assert [a][1..] == [];
  }

  /** A call of `Embed` can be carried on until it returns, with no other step. */
  lemma {:induction false} CallCanReturn(p: Setup, s: State, id: nat) returns (run: seq<Action>)
    requires p.Valid() && Inv(p, s) && id < |s.manager.calls|
    ensures Run(p, s, run).Some? && Inv(p, Run(p, s, run).value)
    ensures var t := Run(p, s, run).value;
            && t.batch == s.batch && t.asked == s.asked
            && id < |t.manager.calls| && t.manager.calls[id].pc.Returned?
    decreases C.Stage(p.cfg, s.manager.calls[id].pc)
  {
    run := [];
    if !s.manager.calls[id].pc.Returned? {
      var c := C.CallCanStep(p.cfg, s.manager, id, Embedded(None));
      var t := Next(p, s, Manager(c)).value;
      C.StepsRunOut(p.cfg, s.manager, c, t.manager, id);
      NextKeeps(p, s, Manager(c), t);
      hide Inv, C.Next, C.Stage;
      var more := CallCanReturn(p, t, id);
      run := [Manager(c)] + more;
      assert run[1..] == more;
    }
  }

  /** The next call of `Embed` is due. */
  predicate CallIsDue(p: Setup, m: C.State, ids: seq<nat>) {
    ids == [] || (|ids| <= p.maxRetries && FailedCall(m, ids[|ids| - 1]))
  }

  /** The last call has not returned yet. */
  predicate Waits(m: C.State, ids: seq<nat>) {
    ids != [] && ids[|ids| - 1] < |m.calls| && !m.calls[ids[|ids| - 1]].pc.Returned?
  }

  /** Otherwise `processWithRetry` can return. */
  lemma ReplyIsThere(p: Setup, m: C.State, ids: seq<nat>, text: string)
    requires AskedOk(p, m, ids, text) && !CallIsDue(p, m, ids) && !Waits(m, ids)
    ensures AllReturned(m, ids) && RetryReply(p.maxRetries, Replies(m, ids), None).Some?
  {
    var n := |ids| - 1;
    assert forall k :: 0 <= k < n ==> FailedCall(m, ids[k]);
    assert m.calls[ids[n]].pc.Returned?;
  }

  lemma WorkerAsks(p: Setup, s: State, j: nat)
    requires p.Valid() && Inv(p, s) && Retrying(s, j)
    ensures AskedOk(p, s.manager, s.asked[j], s.batch.workers[j].text)
  {
    hide AskedOk;
  }

  lemma CallHappens(p: Setup, s: State, j: nat)
    requires p.Valid() && Retrying(s, j) && CallIsDue(p, s.manager, s.asked[j])
    ensures Next(p, s, Call(j)).Some?
    ensures var t := Next(p, s, Call(j)).value;
            t.batch == s.batch && Retrying(t, j) && |t.asked[j]| == |s.asked[j]| + 1
  {
  }

  lemma WorkerReplies(p: Setup, s: State, j: nat) returns (reply: Reply)
    requires p.Valid() && Inv(p, s) && Retrying(s, j)
    requires !CallIsDue(p, s.manager, s.asked[j]) && !Waits(s.manager, s.asked[j])
    ensures Next(p, s, Return(j, None)).Some?
    ensures Some(Next(p, s, Return(j, None)).value.batch) == B.Next(p.env, s.batch, B.Work(j, reply))
  {
    WorkerAsks(p, s, j);
    ReplyIsThere(p, s.manager, s.asked[j], s.batch.workers[j].text);
    hide Inv, AskedOk, RetryReply, Waits, CallIsDue;
    reply := RetryReply(p.maxRetries, Replies(s.manager, s.asked[j]), None).value;
  }

  lemma NotTooMany(p: Setup, s: State, j: nat)
    requires p.Valid() && Inv(p, s) && Retrying(s, j)
    ensures |s.asked[j]| <= p.maxRetries + 1
  {
    WorkerAsks(p, s, j);
  }

  lemma WaitEnds(p: Setup, s: State, j: nat) returns (run: seq<Action>)
    requires p.Valid() && Inv(p, s) && Retrying(s, j) && Waits(s.manager, s.asked[j])
    ensures Run(p, s, run).Some? && Inv(p, Run(p, s, run).value)
    ensures var t := Run(p, s, run).value;
            t.batch == s.batch && t.asked == s.asked && Retrying(t, j) && !Waits(t.manager, t.asked[j])
  {
    hide Inv, Run;
    run := CallCanReturn(p, s, s.asked[j][|s.asked[j]| - 1]);
  }

  /** A worker can get its reply, with no other step of the batch. */
  lemma {:induction false} WorkerCanReturn(p: Setup, s: State, j: nat) returns (run: seq<Action>, reply: Reply)
    requires p.Valid() && Inv(p, s) && Retrying(s, j)
    ensures Run(p, s, run).Some? && Some(Run(p, s, run).value.batch) == B.Next(p.env, s.batch, B.Work(j, reply))
    decreases p.maxRetries + 1 - |s.asked[j]|, if Waits(s.manager, s.asked[j]) then 1 else 0
  {
    hide Inv, Next, B.Next, Run, AskedOk, Waits, CallIsDue, C.Next;
    NotTooMany(p, s, j);
    if CallIsDue(p, s.manager, s.asked[j]) {
      CallHappens(p, s, j);
      var t := Next(p, s, Call(j)).value;
      NextKeeps(p, s, Call(j), t);
      NotTooMany(p, t, j);
      run, reply := WorkerCanReturn(p, t, j);
      RunOne(p, s, Call(j));
      RunConcat(p, s, [Call(j)], run);
      run := [Call(j)] + run;
    } else if Waits(s.manager, s.asked[j]) {
      var first := WaitEnds(p, s, j);
      var t := Run(p, s, first).value;
      NotTooMany(p, t, j);
      run, reply := WorkerCanReturn(p, t, j);
      RunConcat(p, s, first, run);
      run := first + run;
    } else {
      reply := WorkerReplies(p, s, j);
      run := [Return(j, None)];
      RunOne(p, s, Return(j, None));
    }
  }

  /** One step of the batch, and what it takes of the manager. */
  lemma BatchCanStep(p: Setup, s: State) returns (run: seq<Action>, b: B.Action)
    requires p.Valid() && Inv(p, s) && !s.batch.disp.Returned?
    ensures !b.Cancel? && Run(p, s, run).Some? && Some(Run(p, s, run).value.batch) == B.Next(p.env, s.batch, b)
  {
    b := B.SomethingCanHappen(p.env, s.batch);
    if b.Work? && Retrying(s, b.worker) {
      var reply;
      run, reply := WorkerCanReturn(p, s, b.worker);
      b := B.Work(b.worker, reply);
    } else {
      run := [Batch(b)];
      RunOne(p, s, Batch(b));
    }
  }

  lemma {:induction false} CanReturn(p: Setup, s: State) returns (run: seq<Action>)
    requires p.Valid() && Inv(p, s)
    ensures Run(p, s, run).Some? && Run(p, s, run).value.batch.disp.Returned?
    decreases B.Measure(p.env, s.batch)
  {
    run := [];
    if !s.batch.disp.Returned? {
      var first, b := BatchCanStep(p, s);
      var t := Run(p, s, first).value;
      RunKeeps(p, s, first);
      B.NextDecreases(p.env, s.batch, b, t.batch);
      hide Inv, B.Next, Run;
      run := CanReturn(p, t);
      RunConcat(p, s, first, run);
      run := first + run;
    }
  }

  /** No interleaving gets stuck: every run of the batch and the manager can be carried on until `Process`
      returns, as long as the providers answer. */
  lemma EveryRunCanReturn(p: Setup, run: seq<Action>) returns (rest: seq<Action>)
    requires p.Valid() && Run(p, Init(p), run).Some?
    ensures Run(p, Init(p), run + rest).Some? && Run(p, Init(p), run + rest).value.batch.disp.Returned?
  {
    InitKeeps(p);
    RunKeeps(p, Init(p), run);
    rest := CanReturn(p, Run(p, Init(p), run).value);
    RunConcat(p, Init(p), run, rest);
  }
}
