/**
 For how many texts the counts that `Process` of pkg/embedding/batch.go returns add up, whatever happens.
 */
module BatchOutcome {
  import opened BatchEmbedder
  import opened EmbedTypes
  import opened Wrappers

  // ---------------------------------------------------------------- runs in which nothing goes wrong

  /** Nothing has failed and nothing has been cancelled. */
  ghost predicate Smooth(s: State) {
    && s.done.None? && s.errors == [] && !s.disp.Drain? && !s.disp.DrainCount?
    && (s.disp.Returned? ==> s.disp.result.errors == [])
    && (forall j :: 0 <= j < |s.workers| ==> !IsFailed(s.workers[j]))
  }

  /** The steps of such runs. */
  predicate Succeeds(a: Action) {
    a.Dispatch? || (a.Work? && a.reply.Embedded?)
  }

  lemma SmoothNext(env: Env, s: State, a: Action, t: State)
    requires env.Valid() && Inv(env, s) && Smooth(s) && Succeeds(a) && Next(env, s, a) == Some(t)
    ensures Smooth(t)
  {
    if a.Work? {
      SmoothWork(env, s, a.worker, a.reply, t);
    }
  }

  lemma SmoothWork(env: Env, s: State, j: nat, reply: Reply, t: State)
    requires WorkersOk(env, s) && Smooth(s) && reply.Embedded? && WorkStep(s, j, reply) == Some(t)
    ensures Smooth(t)
  {
    assert WorkerOk(env, s.workers[j], j);
    assert !IsFailed(s.workers[j]);
  }

  /** Such a run can be carried on until `Process` returns. */
  lemma {:induction false} SmoothReturn(env: Env, s: State) returns (rest: seq<Action>)
    requires env.Valid() && Inv(env, s) && Smooth(s)
    ensures Exec(env, s, rest).Some? && Exec(env, s, rest).value.disp.Returned? && Smooth(Exec(env, s, rest).value)
    decreases Measure(env, s)
  {
    rest := [];
    if !s.disp.Returned? {
      var a := Dispatch;
      if DispatchStep(env, s).None? {
        var j := BlockedMeansWorking(env, s);
        a := Work(j, Embedded(None));
      }
      hide Inv, DispatchStep, WorkStep, Smooth, Measure;
      var t := Next(env, s, a).value;
      NextInv(env, s, a, t);
      NextDecreases(env, s, a, t);
      SmoothNext(env, s, a, t);
      var more := SmoothReturn(env, t);
      rest := [a] + more;
      assert rest[1..] == more;
    }
  }

  lemma SmoothStart(env: Env)
    ensures Smooth(Init(env))
  {
  }

  // ---------------------------------------------------------------- how many texts can be counted

  /** `Succeeded + Failed = Total` and `len(Errors) = Failed`. */
  predicate AddsUp(r: BatchResult) {
    r.succeeded + r.failed == r.total && r.failed == |r.errors|
  }

  predicate Returns(env: Env, run: seq<Action>)
    requires env.Valid()
  {
    Reach(env, run).Some? && Reach(env, run).value.disp.Returned?
  }

  function ResultOf(env: Env, run: seq<Action>): BatchResult
    requires env.Valid() && Returns(env, run)
  {
    Reach(env, run).value.disp.result
  }

  /** From 2^31 texts on, a run in which every text succeeds does not add up. */
  lemma ManyDoNotAddUp(env: Env) returns (run: seq<Action>)
    requires env.Valid() && |env.texts| >= 0x8000_0000
    ensures Returns(env, run) && !AddsUp(ResultOf(env, run))
  {
    InitInv(env);
    SmoothStart(env);
    run := SmoothReturn(env, Init(env));
    assert ResultOf(env, run).errors == [];
    CountsAddUp(env, run);
    ProcessAccounting(env, run);
  }

  /** The counts add up in every run that returns, if and only if there are fewer than 2^31 texts. */
  lemma AddsUpExactly(env: Env)
    requires env.Valid()
    ensures (forall run :: Returns(env, run) ==> AddsUp(ResultOf(env, run))) <==> |env.texts| < 0x8000_0000
  {
    if |env.texts| < 0x8000_0000 {
      forall run | Returns(env, run)
        ensures AddsUp(ResultOf(env, run))
      {
        CountsAddUp(env, run);
        ProcessAccounting(env, run);
      }
    } else {
      var run := ManyDoNotAddUp(env);
    }
  }

  /** One list of texts for which a run does not add up. */
  lemma TooManyExample() returns (env: Env, run: seq<Action>)
    ensures env.Valid() && Returns(env, run) && !AddsUp(ResultOf(env, run))
  {
    env := NewEnv(seq(0x8000_0000, _ => "text"), 100, 4);
    run := ManyDoNotAddUp(env);
  }
}
