/**
 The launch protocol of cmd/anyclaw-desktop/app.go: any number of goroutines call `Launch`; at most one
 starts the desktop while the others wait, each on a channel of its own, until the starter closes it.
 `stopGateway` may come in between. Each section under the mutex is one step; `startDesktop` runs outside
 it. A channel is named by a number; closing a closed channel would be a panic.
 */
module SingleFlight {
  import opened Wrappers

  datatype LaunchResult = LaunchResult(url: string, error: string)

  /** What `startDesktop` can return: its URL is never empty when it reports no error, since
      `controlUIURL` begins with a scheme. */
  predicate Possible(r: LaunchResult) {
    r.error == "" ==> r.url != ""
  }

  const NO_RESULT: LaunchResult := LaunchResult("", "")

  datatype Thread =
    | Entering
    | Blocked(channel: nat)
    | Starting
    | Finishing(result: LaunchResult)
    | Returned(result: LaunchResult)

  datatype State = State(
    launching: bool,
    waiters: seq<nat>,
    cached: LaunchResult,
    threads: seq<Thread>,
    closed: set<nat>,
    nextChannel: nat,
    successes: nat)

  datatype Action =
    | Call
    | Enter(t: nat)
    | Start(t: nat, result: LaunchResult)
    | Finish(t: nat)
    | Wake(t: nat)
    | Stop

  function Init(): State {
    State(false, [], NO_RESULT, [], {}, 0, 0)
  }

  function Set(s: State, t: nat, th: Thread): State
    requires t < |s.threads|
  {
    s.(threads := s.threads[t := th])
  }

  /** The first section of `Launch`. */
  function EnterStep(s: State, t: nat): State
    requires t < |s.threads|
  {
    if s.cached.url != "" then Set(s, t, Returned(s.cached))
    else if s.launching then
      Set(s, t, Blocked(s.nextChannel)).(waiters := s.waiters + [s.nextChannel], nextChannel := s.nextChannel + 1)
    else Set(s, t, Starting).(launching := true)
  }

  /** No waiting channel is closed already or listed twice. */
  predicate Closable(s: State) {
    && (forall i :: 0 <= i < |s.waiters| ==> s.waiters[i] !in s.closed)
    && (forall i, j :: 0 <= i < j < |s.waiters| ==> s.waiters[i] != s.waiters[j])
  }

  /** The last section of `Launch`; `None` where a channel would be closed twice. */
  function FinishStep(s: State, t: nat, result: LaunchResult): Option<State>
    requires t < |s.threads|
  {
    if !Closable(s) then None else
      Some(Set(s, t, Returned(result)).(
        cached := if result.error == "" then result else s.cached,
        launching := false,
        closed := s.closed + (set w | w in s.waiters),
        waiters := [],
        successes := s.successes + if result.error == "" then 1 else 0))
  }

  function Next(s: State, a: Action): Option<State> {
    match a
    case Call => Some(s.(threads := s.threads + [Entering]))
    case Stop => Some(s.(cached := NO_RESULT))
    case Enter(t) => if t < |s.threads| && s.threads[t].Entering? then Some(EnterStep(s, t)) else None
    case Start(t, r) =>
      if t < |s.threads| && s.threads[t].Starting? && Possible(r) then Some(Set(s, t, Finishing(r))) else None
    case Finish(t) =>
      if t < |s.threads| && s.threads[t].Finishing? then FinishStep(s, t, s.threads[t].result) else None
    case Wake(t) =>
      if t < |s.threads| && s.threads[t].Blocked? && s.threads[t].channel in s.closed then Some(Set(s, t, Entering))
      else None
  }

  function Run(s: State, run: seq<Action>): Option<State>
    decreases run
  {
    if run == [] then Some(s) else
      match Next(s, run[0])
      case None => None
      case Some(u) => Run(u, run[1..])
  }

  // ---------------------------------------------------------------- what every run keeps

  /** The thread is between the two sections of `Launch`, where it starts the desktop. */
  predicate Launches(th: Thread) {
    th.Starting? || th.Finishing?
  }

  ghost predicate Inv(s: State) {
    && (forall t, u :: 0 <= t < u < |s.threads| ==> !(Launches(s.threads[t]) && Launches(s.threads[u])))
    && (s.launching <==> exists t :: 0 <= t < |s.threads| && Launches(s.threads[t]))
    && (s.waiters != [] ==> s.launching)
    && (forall w :: w in s.waiters ==> w < s.nextChannel)
    && Closable(s)
    && (forall w :: w in s.closed ==> w < s.nextChannel)
    && (forall t :: 0 <= t < |s.threads| && s.threads[t].Blocked? ==>
          s.threads[t].channel in s.waiters || s.threads[t].channel in s.closed)
    && (forall t :: 0 <= t < |s.threads| && s.threads[t].Finishing? ==> Possible(s.threads[t].result))
  }

  lemma EnterKeeps(s: State, t: nat)
    requires Inv(s) && t < |s.threads| && s.threads[t].Entering?
    ensures Inv(EnterStep(s, t))
  {
    var u := EnterStep(s, t);
    if s.cached.url == "" && s.launching {
      assert u.waiters[|s.waiters|] == s.nextChannel;
      assert forall i :: 0 <= i < |s.waiters| ==> s.waiters[i] in s.waiters;
      assert forall w :: w in u.waiters <==> w in s.waiters || w == s.nextChannel;
    }
    if s.launching {
      var r :| 0 <= r < |s.threads| && Launches(s.threads[r]);
      assert u.threads[r] == s.threads[r];
    } else if s.cached.url == "" {
      assert Launches(u.threads[t]);
    }
  }

  lemma FinishKeeps(s: State, t: nat, u: State)
    requires Inv(s) && t < |s.threads| && s.threads[t].Finishing? && FinishStep(s, t, s.threads[t].result) == Some(u)
    ensures Inv(u)
  {
    assert Launches(s.threads[t]);
  }

  lemma NextKeeps(s: State, a: Action, u: State)
    requires Inv(s) && Next(s, a) == Some(u)
    ensures Inv(u)
  {
    match a
    case Enter(t) => EnterKeeps(s, t);
    case Finish(t) => FinishKeeps(s, t, u);
    case Call => assert forall t :: 0 <= t < |s.threads| ==> u.threads[t] == s.threads[t];
    case Stop =>
    case Start(t, r) =>
      assert Launches(s.threads[t]) && Launches(u.threads[t]);
    case Wake(t) =>
      if s.launching {
        var r :| 0 <= r < |s.threads| && Launches(s.threads[r]);
        assert u.threads[r] == s.threads[r];
      }
  }

  lemma {:induction false} RunKeeps(s: State, run: seq<Action>)
    requires Inv(s) && Run(s, run).Some?
    ensures Inv(Run(s, run).value)
    decreases run
  {
    if run != [] {
      NextKeeps(s, run[0], Next(s, run[0]).value);
      RunKeeps(Next(s, run[0]).value, run[1..]);
    }
  }

  /** In every interleaving at most one thread starts the desktop, and one does exactly when `launching`
      is set. */
  lemma SingleStarter(run: seq<Action>)
    requires Run(Init(), run).Some?
    ensures var s := Run(Init(), run).value;
            && (forall t, u :: 0 <= t < u < |s.threads| ==> !(Launches(s.threads[t]) && Launches(s.threads[u])))
            && (s.launching <==> exists t :: 0 <= t < |s.threads| && Launches(s.threads[t]))
  {
    RunKeeps(Init(), run);
  }

  /** In every interleaving a blocked thread's channel is closed already, or it is among the waiters while
      some thread is starting the desktop and will close it: no wake-up is lost. */
  lemma NoLostWakeUp(run: seq<Action>, t: nat)
    requires Run(Init(), run).Some? && t < |Run(Init(), run).value.threads|
    requires Run(Init(), run).value.threads[t].Blocked?
    ensures var s := Run(Init(), run).value;
            var w := s.threads[t].channel;
            w in s.closed || (w in s.waiters && s.launching && exists u :: 0 <= u < |s.threads| && Launches(s.threads[u]))
  {
    RunKeeps(Init(), run);
  }

  /** No channel is ever closed twice: the last section of `Launch` can always run. */
  lemma FinishNeverPanics(run: seq<Action>, t: nat)
    requires Run(Init(), run).Some? && t < |Run(Init(), run).value.threads|
    requires Run(Init(), run).value.threads[t].Finishing?
    ensures Next(Run(Init(), run).value, Finish(t)).Some?
  {
    RunKeeps(Init(), run);
  }

  // ---------------------------------------------------------------- every call returns

  /** How far a thread is from its return, until the next starter finishes. */
  function Rank(closed: set<nat>, th: Thread): nat {
    match th
    case Entering => 3
    case Blocked(w) => if w in closed then 4 else 2
    case Starting => 2
    case Finishing(_) => 1
    case Returned(_) => 0
  }

  function Ranks(closed: set<nat>, ths: seq<Thread>): nat {
    if ths == [] then 0 else Ranks(closed, ths[..|ths| - 1]) + Rank(closed, ths[|ths| - 1])
  }

  function Active(th: Thread): nat {
    if th.Returned? then 0 else 1
  }

  function Actives(ths: seq<Thread>): nat {
    if ths == [] then 0 else Actives(ths[..|ths| - 1]) + Active(ths[|ths| - 1])
  }

  /** A bound on the steps that the calls made so far can still take. */
  function Measure(s: State): nat {
    3 * (|s.threads| * Actives(s.threads)) + Ranks(s.closed, s.threads)
  }

  lemma {:induction false} SetThread(closed: set<nat>, ths: seq<Thread>, t: nat, th: Thread)
    requires t < |ths|
    ensures Ranks(closed, ths[t := th]) == Ranks(closed, ths) - Rank(closed, ths[t]) + Rank(closed, th)
    ensures Actives(ths[t := th]) == Actives(ths) - Active(ths[t]) + Active(th)
  {
    var n := |ths| - 1;
    var us := ths[t := th];
    if t == n {
      assert us[..n] == ths[..n];
    } else {
      SetThread(closed, ths[..n], t, th);
      assert us[..n] == ths[..n][t := th];
    }
  }

  lemma {:induction false} ClosingRaises(closed: set<nat>, more: set<nat>, ths: seq<Thread>)
    requires closed <= more
    ensures Ranks(more, ths) <= Ranks(closed, ths) + 2 * |ths|
  {
    if ths != [] {
      ClosingRaises(closed, more, ths[..|ths| - 1]);
    }
  }

  lemma EnterRunsOut(s: State, t: nat)
    requires Inv(s) && t < |s.threads| && s.threads[t].Entering?
    ensures Measure(EnterStep(s, t)) < Measure(s)
  {
    hide Ranks, Actives;
    var u := EnterStep(s, t);
    var n, k := |s.threads|, Actives(s.threads);
    SetThread(s.closed, s.threads, t, u.threads[t]);
    assert u.closed == s.closed;
    if u.threads[t].Returned? {
      assert n * (k - 1) == n * k - n;
    } else if u.threads[t].Blocked? {
      assert s.nextChannel !in s.closed;
    }
  }

  lemma FinishRunsOut(s: State, t: nat, u: State)
    requires t < |s.threads| && s.threads[t].Finishing? && FinishStep(s, t, s.threads[t].result) == Some(u)
    ensures Measure(u) < Measure(s)
  {
    hide Closable, Ranks, Actives;
    var n, k := |s.threads|, Actives(s.threads);
    SetThread(s.closed, s.threads, t, Returned(s.threads[t].result));
    ClosingRaises(s.closed, u.closed, u.threads);
    assert n * (k - 1) == n * k - n;
  }

  /** Every step of `Launch` brings the calls made so far closer to their return; `stopGateway` does not
      take them further from it. */
  lemma StepsRunOut(s: State, a: Action, u: State)
    requires Inv(s) && Next(s, a) == Some(u) && !a.Call?
    ensures if a.Stop? then Measure(u) == Measure(s) else Measure(u) < Measure(s)
  {
    match a
    case Stop =>
    case Enter(t) => EnterRunsOut(s, t);
    case Finish(t) => FinishRunsOut(s, t, u);
    case Start(t, r) =>
      hide Inv, Ranks, Actives;
      SetThread(s.closed, s.threads, t, Finishing(r));
    case Wake(t) =>
      hide Inv, Ranks, Actives;
      SetThread(s.closed, s.threads, t, Entering);
  }

  /** The steps of a run other than `stopGateway`. */
  function LaunchSteps(run: seq<Action>): nat {
    if run == [] then 0 else (if run[0].Stop? then 0 else 1) + LaunchSteps(run[1..])
  }

  /** However calls and `stopGateway` interleave, the calls made so far take at most `Measure` steps. */
  lemma {:induction false} RunsAreShort(s: State, run: seq<Action>)
    requires Inv(s) && Run(s, run).Some? && Call !in run
    ensures LaunchSteps(run) + Measure(Run(s, run).value) <= Measure(s)
    decreases run
  {
    if run != [] {
      hide Measure, Inv;
      var u := Next(s, run[0]).value;
      assert run[0] in run;
      NextKeeps(s, run[0], u);
      StepsRunOut(s, run[0], u);
      RunsAreShort(u, run[1..]);
    }
  }

  /** As long as some call has not returned, some call can take a step; `startDesktop` is taken to return. */
  lemma SomeoneCanStep(s: State, t: nat) returns (a: Action)
    requires Inv(s) && t < |s.threads| && !s.threads[t].Returned?
    ensures !a.Call? && !a.Stop? && Next(s, a).Some?
  {
    match s.threads[t]
    case Entering => a := Enter(t);
    case Starting => a := Start(t, LaunchResult("", "failed"));
    case Finishing(_) => a := Finish(t);
    case Blocked(w) =>
      if w in s.closed {
        a := Wake(t);
      } else {
        assert w in s.waiters;
        var r :| 0 <= r < |s.threads| && Launches(s.threads[r]);
        a := if s.threads[r].Starting? then Start(r, LaunchResult("", "failed")) else Finish(r);
      }
  }

  // ---------------------------------------------------------------- one success

  /** In runs without `stopGateway`: there is a cached result exactly when one start has succeeded, after
      which nobody starts again, and every successful return is that result. */
  ghost predicate OneSuccess(s: State) {
    && s.successes <= 1
    && (s.cached.url != "" <==> s.successes == 1)
    && (s.successes == 1 ==> s.cached.error == "" && forall t :: 0 <= t < |s.threads| ==> !Launches(s.threads[t]))
    && (forall t {:trigger s.threads[t]} :: 0 <= t < |s.threads| && s.threads[t].Returned? && s.threads[t].result.error == "" ==>
          s.successes == 1 && s.threads[t].result == s.cached)
  }

  lemma OneSuccessKept(s: State, a: Action, u: State)
    requires Inv(s) && OneSuccess(s) && Next(s, a) == Some(u) && !a.Stop?
    ensures OneSuccess(u)
  {
    if a.Finish? {
      assert Launches(s.threads[a.t]);
      assert Possible(s.threads[a.t].result);
    }
  }

  lemma {:induction false} OneSuccessRun(s: State, run: seq<Action>)
    requires Inv(s) && OneSuccess(s) && Run(s, run).Some? && Stop !in run
    ensures OneSuccess(Run(s, run).value)
    decreases run
  {
    if run != [] {
      var u := Next(s, run[0]).value;
      assert run[0] in run;
      NextKeeps(s, run[0], u);
      OneSuccessKept(s, run[0], u);
      OneSuccessRun(u, run[1..]);
    }
  }

  /** Without `stopGateway`, at most one start ever succeeds, and all successful calls return its result. */
  lemma AtMostOneSuccess(run: seq<Action>)
    requires Run(Init(), run).Some? && Stop !in run
    ensures OneSuccess(Run(Init(), run).value)
  {
    OneSuccessRun(Init(), run);
  }

  /** While a result is cached, nobody is starting the desktop. */
  ghost predicate CachedIsIdle(s: State) {
    s.cached.url != "" ==> !s.launching
  }

  lemma CachedStaysIdle(s: State, a: Action, u: State)
    requires Inv(s) && CachedIsIdle(s) && Next(s, a) == Some(u)
    ensures CachedIsIdle(u)
  {
    assert forall i :: 0 <= i < |s.threads| && s.threads[i].Finishing? ==> Launches(s.threads[i]);
  }

  lemma {:induction false} IdleRun(s: State, run: seq<Action>)
    requires Inv(s) && CachedIsIdle(s) && Run(s, run).Some?
    ensures Inv(Run(s, run).value) && CachedIsIdle(Run(s, run).value)
    decreases run
  {
    if run != [] {
      hide Inv, CachedIsIdle;
      var u := Next(s, run[0]).value;
      NextKeeps(s, run[0], u);
      CachedStaysIdle(s, run[0], u);
      IdleRun(u, run[1..]);
    }
  }

  /** What a call under way or made later has returned is the cached result. */
  ghost predicate ReturnsCached(s: State, u: State, t: nat) {
    && u.cached == s.cached && |s.threads| <= |u.threads|
    && (t < |u.threads| && u.threads[t].Returned? ==>
          u.threads[t].result == s.cached || (t < |s.threads| && u.threads[t] == s.threads[t]))
  }

  lemma CachedStays(s: State, a: Action, u: State, t: nat)
    requires Inv(s) && CachedIsIdle(s) && s.cached.url != "" && Next(s, a) == Some(u) && !a.Stop?
    ensures ReturnsCached(s, u, t)
  {
    assert forall i :: 0 <= i < |s.threads| && s.threads[i].Finishing? ==> Launches(s.threads[i]);
  }

  lemma {:induction false} CachedStaysOverRuns(s: State, run: seq<Action>, t: nat)
    requires Inv(s) && CachedIsIdle(s) && s.cached.url != "" && Run(s, run).Some? && Stop !in run
    ensures ReturnsCached(s, Run(s, run).value, t)
    decreases run
  {
    if run != [] {
      hide Inv, CachedIsIdle;
      var u := Next(s, run[0]).value;
      assert run[0] in run;
      NextKeeps(s, run[0], u);
      CachedStaysIdle(s, run[0], u);
      CachedStays(s, run[0], u, t);
      CachedStaysOverRuns(u, run[1..], t);
    }
  }

  /** Whatever has happened before, stops and other starts included: once a result is cached, and until
      `stopGateway` comes, it stays, and every call still under way or made later returns it. */
  lemma LaterCallsReturnCached(before: seq<Action>, run: seq<Action>, t: nat)
    requires Run(Init(), before).Some? && Run(Init(), before).value.cached.url != ""
    requires Run(Run(Init(), before).value, run).Some? && Stop !in run
    ensures ReturnsCached(Run(Init(), before).value, Run(Run(Init(), before).value, run).value, t)
  {
    IdleRun(Init(), before);
    hide Inv, CachedIsIdle;
    CachedStaysOverRuns(Run(Init(), before).value, run, t);
  }

  // ---------------------------------------------------------------- where results come from

  /** The result is what a start of this thread came to; if it is a success, a start of some thread. */
  ghost predicate Started(run: seq<Action>, t: nat, r: LaunchResult) {
    if r.error != "" then Start(t, r) in run else SomeStart(run, r)
  }

  ghost predicate SomeStart(run: seq<Action>, r: LaunchResult) {
    exists u :: Start(u, r) in run
  }

  ghost predicate Traced(s: State, past: seq<Action>) {
    && (s.cached == NO_RESULT || (s.cached.error == "" && SomeStart(past, s.cached)))
    && forall t {:trigger s.threads[t]} :: 0 <= t < |s.threads| ==>
         && (s.threads[t].Finishing? ==> Start(t, s.threads[t].result) in past)
         && (s.threads[t].Returned? ==> Started(past, t, s.threads[t].result))
  }

  lemma MoreStarts(past: seq<Action>, a: Action)
    ensures forall r :: SomeStart(past, r) ==> SomeStart(past + [a], r)
    ensures forall t, r :: Started(past, t, r) ==> Started(past + [a], t, r)
    ensures forall b :: b in past ==> b in past + [a]
  {
    forall r | SomeStart(past, r)
      ensures SomeStart(past + [a], r)
    {
      var u :| Start(u, r) in past;
      assert Start(u, r) in past + [a];
    }
  }

  lemma TracedNext(s: State, past: seq<Action>, a: Action, u: State)
    requires Traced(s, past) && Next(s, a) == Some(u)
    ensures Traced(u, past + [a])
  {
    MoreStarts(past, a);
    assert a in past + [a];
    if a.Finish? {
      var r := s.threads[a.t].result;
      assert Start(a.t, r) in past + [a];
      assert SomeStart(past + [a], r);
    }
    hide SomeStart;
  }

  lemma {:induction false} TracedRun(s: State, past: seq<Action>, run: seq<Action>)
    requires Traced(s, past) && Run(s, run).Some?
    ensures Traced(Run(s, run).value, past + run)
    decreases run
  {
    if run == [] {
      assert past + run == past;
    } else {
      hide Traced, Next;
      TracedNext(s, past, run[0], Next(s, run[0]).value);
      TracedRun(Next(s, run[0]).value, past + [run[0]], run[1..]);
      assert past + [run[0]] + run[1..] == past + run;
    }
  }

  /** Nobody makes results up: in every interleaving a call that returns an error has started the desktop
      itself, and with that very error; one that returns a success returns what some start came to. */
  lemma ResultsAreStarted(run: seq<Action>, t: nat)
    requires Run(Init(), run).Some? && t < |Run(Init(), run).value.threads|
    requires Run(Init(), run).value.threads[t].Returned?
    ensures Started(run, t, Run(Init(), run).value.threads[t].result)
  {
    TracedRun(Init(), [], run);
    assert [] + run == run;
  }

  // ---------------------------------------------------------------- stopping

  /** A call enters and becomes the starter. */
  predicate Begins(s: State, a: Action) {
    a.Enter? && s.cached.url == "" && !s.launching
  }

  predicate NoneBegins(s: State, run: seq<Action>)
    decreases run
  {
    run == [] || (!Begins(s, run[0]) && (Next(s, run[0]).Some? ==> NoneBegins(Next(s, run[0]).value, run[1..])))
  }

  /** The thread has begun a start that has succeeded, or may still. */
  predicate MaySucceed(th: Thread) {
    th.Starting? || (th.Finishing? && th.result.error == "")
  }

  ghost predicate StartUnderWay(s: State) {
    exists t :: 0 <= t < |s.threads| && MaySucceed(s.threads[t])
  }

  /** Until another start begins, no result is cached. */
  ghost predicate StaysEmpty(s: State) {
    forall run :: Run(s, run).Some? && NoneBegins(s, run) ==> Run(s, run).value.cached == NO_RESULT
  }

  lemma StaysQuiet(s: State, a: Action, u: State)
    requires s.cached == NO_RESULT && !StartUnderWay(s) && Next(s, a) == Some(u) && !Begins(s, a)
    ensures u.cached == NO_RESULT && !StartUnderWay(u)
  {
    assert forall t :: 0 <= t < |s.threads| ==> !MaySucceed(s.threads[t]);
    if a.Call? {
      assert forall t :: 0 <= t < |s.threads| ==> u.threads[t] == s.threads[t];
    }
  }

  lemma {:induction false} StaysQuietOverRuns(s: State, run: seq<Action>)
    requires s.cached == NO_RESULT && !StartUnderWay(s) && Run(s, run).Some? && NoneBegins(s, run)
    ensures Run(s, run).value.cached == NO_RESULT
    decreases run
  {
    if run != [] {
      hide StartUnderWay, Begins;
      var u := Next(s, run[0]).value;
      StaysQuiet(s, run[0], u);
      StaysQuietOverRuns(u, run[1..]);
    }
  }

  /** A start that is under way can end and be cached, although no other one begins. */
  lemma StartEnds(s: State, t: nat) returns (run: seq<Action>)
    requires Inv(s) && t < |s.threads| && MaySucceed(s.threads[t])
    ensures Run(s, run).Some? && NoneBegins(s, run) && Run(s, run).value.cached != NO_RESULT
  {
    if s.threads[t].Finishing? {
      run := [Finish(t)];
      assert run[1..] == [];
    } else {
      var r := LaunchResult("http", "");
      run := [Start(t, r), Finish(t)];
      assert run[1..] == [Finish(t)] && run[1..][1..] == [];
      var u := Next(s, run[0]).value;
      assert Run(u, run[1..]) == Run(Next(u, Finish(t)).value, []);
    }
  }

  /** After `stopGateway` the result stays forgotten until another start begins, if and only if no start is
      under way when it comes: such a start is cached although it was stopped. */
  lemma StopIsFinal(before: seq<Action>)
    requires Run(Init(), before).Some?
    ensures var s := Run(Init(), before).value;
            Next(s, Stop).Some? && (StaysEmpty(Next(s, Stop).value) <==> !StartUnderWay(s))
  {
    var s := Run(Init(), before).value;
    RunKeeps(Init(), before);
    NextKeeps(s, Stop, Next(s, Stop).value);
    var u := Next(s, Stop).value;
    assert u.threads == s.threads && u.cached == NO_RESULT;
    if StartUnderWay(s) {
      var t :| 0 <= t < |s.threads| && MaySucceed(s.threads[t]);
      hide Inv, Run;
      var run := StartEnds(u, t);
    } else {
      hide Inv, Run;
      forall run | Run(u, run).Some? && NoneBegins(u, run)
        ensures Run(u, run).value.cached == NO_RESULT
      {
        StaysQuietOverRuns(u, run);
      }
    }
  }

  /** One run that ends with the result of a start that was stopped. */
  lemma StaleExample(r: LaunchResult)
    requires Possible(r) && r.error == ""
    ensures var run := [Call, Enter(0), Start(0, r), Stop, Finish(0)];
            Run(Init(), run).Some? && Run(Init(), run).value.cached == r
  {
    var s0 := Next(Init(), Call).value;
    var s1 := Next(s0, Enter(0)).value;
    assert s1.threads[0] == Starting && s1.waiters == [];
    var s2 := Next(Next(s1, Start(0, r)).value, Stop).value;
    assert s2.threads[0] == Finishing(r) && s2.waiters == [];
    var s3 := Next(s2, Finish(0)).value;
    var run := [Call, Enter(0), Start(0, r), Stop, Finish(0)];
    assert run[1..] == [Enter(0), Start(0, r), Stop, Finish(0)] && run[1..][1..] == [Start(0, r), Stop, Finish(0)];
    hide Next;
    assert [Stop, Finish(0)][1..] == [Finish(0)] && [Finish(0)][1..] == [];
    assert Run(s2, [Finish(0)]) == Run(s3, []);
    assert [Start(0, r), Stop, Finish(0)][1..] == [Stop, Finish(0)];
    assert Run(s1, [Start(0, r), Stop, Finish(0)]) == Run(Next(s1, Start(0, r)).value, [Stop, Finish(0)]);
  }
}
