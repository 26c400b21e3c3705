/**
 Any number of `Manager.Embed` calls of pkg/embedding/manager.go running at once. Each lock section and
 each provider call is one step; between any two steps of one call the others may do as they like and the
 clock may move on. Which items an eviction removes is up to the step.
 */
module EmbedConcurrent {
  import opened Wrappers
  import opened EmbedTypes
  import opened EmbedCache
  import opened EmbedManager

  datatype Config = Config(providers: nat, maxSize: nat, ttl: int) {
    ghost predicate Valid() {
      providers > 0 && maxSize > 0 && ttl > 0
    }
  }

  /** What a call of `Embed` has just done, or is about to do. */
  datatype Pc =
    | Lookup
    | ReadCurrent
    | Try(offset: nat)
    | Remember(provider: nat, value: Embedding)
    | Keep(value: Embedding)
    | Returned(reply: Reply)

  /** One call: its text, the provider it started from, and the providers that failed it so far. */
  datatype Call = Call(text: string, pc: Pc, start: nat, failed: seq<nat>)

  /** A provider's answer to a text. */
  datatype Answer = Answer(text: string, provider: nat, reply: Reply)

  /** A value that was stored, and when. */
  datatype Stamp = Stamp(text: string, value: Embedding, at: int)

  datatype State = State(
    clock: int, current: nat, items: Items, calls: seq<Call>, answers: set<Answer>, stored: set<Stamp>)

  datatype Action =
    | Tick(now: int)
    | Arrive(text: string)
    | Look(j: nat)
    | Begin(j: nat)
    | Ask(j: nat, reply: Reply)
    | Settle(j: nat)
    | Store(j: nat, evictedAt: int, now: int, after: Items)

  function Init(): State {
    State(0, 0, map[], [], {}, {})
  }

  function Move(s: State, j: nat, c: Call): State
    requires j < |s.calls|
  {
    s.(calls := s.calls[j := c])
  }

  ghost function Next(cfg: Config, s: State, a: Action): Option<State>
    requires cfg.Valid()
  {
    match a
    case Tick(now) => if now < s.clock then None else Some(s.(clock := now))
    case Arrive(text) => Some(s.(calls := s.calls + [Call(text, Lookup, 0, [])]))
    case Look(j) =>
      if j >= |s.calls| || !s.calls[j].pc.Lookup? then None else
        var c := s.calls[j];
        if c.text in s.items && !Expired(s.items[c.text], s.clock)
        then Some(Move(s, j, c.(pc := Returned(Embedded(s.items[c.text].value)))))
        else Some(Move(s, j, c.(pc := ReadCurrent)))
    case Begin(j) =>
      if j >= |s.calls| || !s.calls[j].pc.ReadCurrent? then None
      else Some(Move(s, j, s.calls[j].(pc := Try(0), start := if s.current < cfg.providers then s.current else 0)))
    case Ask(j, reply) =>
      if j >= |s.calls| || !s.calls[j].pc.Try? then None else
        var c := s.calls[j];
        var k := c.pc.offset;
        var i := (c.start + k) % cfg.providers;
        var t := s.(answers := s.answers + {Answer(c.text, i, reply)});
        if reply.Embedded? then Some(Move(t, j, c.(pc := Remember(i, reply.vector)))) else
          var pc := if k + 1 < cfg.providers then Try(k + 1) else Returned(Reply.Failed(AllProvidersFailed(reply.err)));
          Some(Move(t, j, c.(pc := pc, failed := c.failed + [i])))
    case Settle(j) =>
      if j >= |s.calls| || !s.calls[j].pc.Remember? then None else
        var c := s.calls[j];
        Some(Move(s, j, c.(pc := Keep(c.pc.value))).(current := c.pc.provider))
    case Store(j, evictedAt, now, after) =>
      if j >= |s.calls| || !s.calls[j].pc.Keep? then None else
        var c := s.calls[j];
        if s.clock <= evictedAt <= now && Stored(s.items, cfg.maxSize, cfg.ttl, c.text, c.pc.value, evictedAt, now, after)
        then Some(Move(s, j, c.(pc := Returned(Embedded(c.pc.value)))).(
          items := after, clock := now, stored := s.stored + {Stamp(c.text, c.pc.value, now)}))
        else None
  }

  ghost function Run(cfg: Config, s: State, run: seq<Action>): Option<State>
    requires cfg.Valid()
    decreases run
  {
    if run == [] then Some(s) else
      match Next(cfg, s, run[0])
      case None => None
      case Some(t) => Run(cfg, t, run[1..])
  }

  // ---------------------------------------------------------------- what every run keeps

  /** Some provider returned this value for this text. */
  ghost predicate Genuine(cfg: Config, answers: set<Answer>, text: string, v: Embedding) {
    exists p: nat :: p < cfg.providers && Answer(text, p, Embedded(v)) in answers
  }

  /** Provider `p` was asked for this text and failed. */
  ghost predicate Failing(answers: set<Answer>, text: string, p: nat) {
    exists e :: Answer(text, p, Reply.Failed(e)) in answers
  }

  ghost predicate CallOk(cfg: Config, answers: set<Answer>, c: Call)
    requires cfg.Valid()
  {
    && |c.failed| <= cfg.providers && c.failed == Rotation(c.start, |c.failed|, cfg.providers)
    && (forall p :: p in c.failed ==> Failing(answers, c.text, p))
    && c.start < cfg.providers
    && match c.pc
       case Try(offset) => offset == |c.failed| < cfg.providers
       case Remember(p, v) => p < cfg.providers && Genuine(cfg, answers, c.text, v)
       case Keep(v) => Genuine(cfg, answers, c.text, v)
       case Returned(Embedded(v)) => Genuine(cfg, answers, c.text, v)
       case Returned(Failed(_)) => |c.failed| == cfg.providers
       case _ => c.failed == []
  }

  ghost predicate ItemsOk(cfg: Config, answers: set<Answer>, items: Items) {
    |items| <= cfg.maxSize && forall k :: k in items ==> Genuine(cfg, answers, k, items[k].value)
  }

  ghost predicate Inv(cfg: Config, s: State)
    requires cfg.Valid()
  {
    s.current < cfg.providers && ItemsOk(cfg, s.answers, s.items) && forall c :: c in s.calls ==> CallOk(cfg, s.answers, c)
  }

  lemma GenuineStays(cfg: Config, answers: set<Answer>, more: set<Answer>, text: string, v: Embedding)
    requires answers <= more && Genuine(cfg, answers, text, v)
    ensures Genuine(cfg, more, text, v)
  {
    var p: nat :| p < cfg.providers && Answer(text, p, Embedded(v)) in answers;
    assert Answer(text, p, Embedded(v)) in more;
  }

  lemma CallStays(cfg: Config, answers: set<Answer>, more: set<Answer>, c: Call)
    requires cfg.Valid() && answers <= more && CallOk(cfg, answers, c)
    ensures CallOk(cfg, more, c)
  {
    hide Rotation;
    forall p | p in c.failed
      ensures Failing(more, c.text, p)
    {
      var e :| Answer(c.text, p, Reply.Failed(e)) in answers;
      assert Answer(c.text, p, Reply.Failed(e)) in more;
    }
    match c.pc
    case Remember(_, v) => GenuineStays(cfg, answers, more, c.text, v);
    case Keep(v) => GenuineStays(cfg, answers, more, c.text, v);
    case Returned(Embedded(v)) => GenuineStays(cfg, answers, more, c.text, v);
    case _ =>
  }

  lemma ItemsStay(cfg: Config, answers: set<Answer>, more: set<Answer>, items: Items)
    requires answers <= more && ItemsOk(cfg, answers, items)
    ensures ItemsOk(cfg, more, items)
  {
    forall k | k in items
      ensures Genuine(cfg, more, k, items[k].value)
    {
      GenuineStays(cfg, answers, more, k, items[k].value);
    }
  }

  /** Replacing one call keeps all calls in order. */
  lemma MoveKeeps(cfg: Config, s: State, j: nat, c: Call, more: set<Answer>)
    requires cfg.Valid() && j < |s.calls| && s.answers <= more && CallOk(cfg, more, c)
    requires forall d :: d in s.calls ==> CallOk(cfg, s.answers, d)
    ensures forall d :: d in s.calls[j := c] ==> CallOk(cfg, more, d)
  {
    hide CallOk;
    forall d | d in s.calls[j := c]
      ensures CallOk(cfg, more, d)
    {
      if d != c {
        assert d in s.calls;
        CallStays(cfg, s.answers, more, d);
      }
    }
  }

  lemma AskKeeps(cfg: Config, s: State, j: nat, reply: Reply, t: State)
    requires cfg.Valid() && Inv(cfg, s) && Next(cfg, s, Ask(j, reply)) == Some(t)
    ensures Inv(cfg, t)
  {
    var c := s.calls[j];
    assert c in s.calls;
    CallStays(cfg, s.answers, t.answers, c);
    ItemsStay(cfg, s.answers, t.answers, s.items);
    var i := (c.start + c.pc.offset) % cfg.providers;
    assert Answer(c.text, i, reply) in t.answers;
    AskedCall(cfg, t.answers, c, i, reply, t.calls[j]);
    MoveKeeps(cfg, s, j, t.calls[j], t.answers);
  }

  lemma AskedCall(cfg: Config, answers: set<Answer>, c: Call, i: nat, reply: Reply, d: Call)
    requires cfg.Valid() && CallOk(cfg, answers, c) && c.pc.Try? && Answer(c.text, i, reply) in answers
    requires i == (c.start + c.pc.offset) % cfg.providers && i < cfg.providers
    requires match reply
             case Embedded(v) => d == c.(pc := Remember(i, v))
             case Failed(e) =>
               d == c.(pc := if c.pc.offset + 1 < cfg.providers then Try(c.pc.offset + 1)
                             else Returned(Reply.Failed(AllProvidersFailed(e))),
                       failed := c.failed + [i])
    ensures CallOk(cfg, answers, d)
  {
    match reply
    case Embedded(v) => assert Genuine(cfg, answers, c.text, v);
    case Failed(e) =>
      assert Failing(answers, c.text, i);
      assert d.failed == Rotation(c.start, |d.failed|, cfg.providers);
  }

  lemma StoreKeeps(cfg: Config, s: State, a: Action, t: State)
    requires cfg.Valid() && Inv(cfg, s) && a.Store? && Next(cfg, s, a) == Some(t)
    ensures Inv(cfg, t)
  {
    var c := s.calls[a.j];
    assert c in s.calls;
    StoringKeepsBound(s.items, cfg.maxSize, cfg.ttl, c.text, c.pc.value, a.evictedAt, a.now, a.after);
    hide Stored, Rotation;
    MoveKeeps(cfg, s, a.j, t.calls[a.j], s.answers);
  }

  lemma LookKeeps(cfg: Config, s: State, j: nat, t: State)
    requires cfg.Valid() && Inv(cfg, s)
    requires Next(cfg, s, Look(j)) == Some(t) || Next(cfg, s, Begin(j)) == Some(t) || Next(cfg, s, Settle(j)) == Some(t)
    ensures Inv(cfg, t)
  {
    hide Stored;
    var c := s.calls[j];
    assert c in s.calls;
    MoveKeeps(cfg, s, j, t.calls[j], s.answers);
  }

  /** Every step keeps the invariant. */
  lemma NextKeeps(cfg: Config, s: State, a: Action, t: State)
    requires cfg.Valid() && Inv(cfg, s) && Next(cfg, s, a) == Some(t)
    ensures Inv(cfg, t)
  {
    match a
    case Tick(_) =>
    case Arrive(_) =>
      hide Stored;
      assert forall c :: c in t.calls ==> c in s.calls || c == t.calls[|s.calls|];
    case Ask(j, reply) => AskKeeps(cfg, s, j, reply, t);
    case Store(_, _, _, _) => StoreKeeps(cfg, s, a, t);
    case Look(j) => LookKeeps(cfg, s, j, t);
    case Begin(j) => LookKeeps(cfg, s, j, t);
    case Settle(j) => LookKeeps(cfg, s, j, t);
  }

  lemma {:induction false} RunKeeps(cfg: Config, s: State, run: seq<Action>)
    requires cfg.Valid() && Inv(cfg, s) && Run(cfg, s, run).Some?
    ensures Inv(cfg, Run(cfg, s, run).value)
    decreases run
  {
    if run != [] {
      var t := Next(cfg, s, run[0]).value;
      NextKeeps(cfg, s, run[0], t);
      RunKeeps(cfg, t, run[1..]);
    }
  }

  /** In every interleaving the cache stays within its capacity, and the provider index within the list. */
  lemma AlwaysBounded(cfg: Config, run: seq<Action>)
    requires cfg.Valid() && Run(cfg, Init(), run).Some?
    ensures var s := Run(cfg, Init(), run).value;
            |s.items| <= cfg.maxSize && s.current < cfg.providers
  {
    RunKeeps(cfg, Init(), run);
  }

  /** In every interleaving each value a call returns is one that a provider returned for that same text. */
  lemma ReturnsAreGenuine(cfg: Config, run: seq<Action>, j: nat)
    requires cfg.Valid() && Run(cfg, Init(), run).Some?
    requires var s := Run(cfg, Init(), run).value;
             j < |s.calls| && s.calls[j].pc.Returned? && s.calls[j].pc.reply.Embedded?
    ensures var s := Run(cfg, Init(), run).value;
            Genuine(cfg, s.answers, s.calls[j].text, s.calls[j].pc.reply.vector)
  {
    RunKeeps(cfg, Init(), run);
    var s := Run(cfg, Init(), run).value;
    assert s.calls[j] in s.calls;
  }

  /** In every interleaving the providers that failed a call are the first ones in rotation from its start,
      none of them asked twice; and a call fails only once every provider has failed its text. */
  lemma FailuresAreTotal(cfg: Config, run: seq<Action>, j: nat)
    requires cfg.Valid() && Run(cfg, Init(), run).Some? && j < |Run(cfg, Init(), run).value.calls|
    ensures var s := Run(cfg, Init(), run).value;
            var c := s.calls[j];
            && c.failed == Rotation(c.start, |c.failed|, cfg.providers)
            && (forall k, l :: 0 <= k < l < |c.failed| ==> c.failed[k] != c.failed[l])
            && (c.pc.Returned? && c.pc.reply.Failed? ==>
                  forall p: nat :: p < cfg.providers ==> Failing(s.answers, c.text, p))
  {
    RunKeeps(cfg, Init(), run);
    var s := Run(cfg, Init(), run).value;
    var c := s.calls[j];
    assert c in s.calls;
    RotationIsDistinct(c.start, |c.failed|, cfg.providers);
    if c.pc.Returned? && c.pc.reply.Failed? {
      forall p: nat | p < cfg.providers
        ensures Failing(s.answers, c.text, p)
      {
        RotationCovers(c.start, cfg.providers, p);
      }
    }
  }

  // ---------------------------------------------------------------- every call returns

  /** How many steps a call still takes at most. */
  function Stage(cfg: Config, pc: Pc): nat {
    match pc
    case Lookup => cfg.providers + 4
    case ReadCurrent => cfg.providers + 3
    case Try(k) => if k < cfg.providers then cfg.providers - k + 2 else 2
    case Remember(_, _) => 2
    case Keep(_) => 1
    case Returned(_) => 0
  }

  /** The call that a step is one of. */
  function CallOf(a: Action): Option<nat> {
    match a
    case Look(j) => Some(j)
    case Begin(j) => Some(j)
    case Ask(j, _) => Some(j)
    case Settle(j) => Some(j)
    case Store(j, _, _, _) => Some(j)
    case _ => None
  }

  /** Every step brings its call closer to its return, whatever a provider answers, and leaves the others
      where they are: a call takes at most four steps and one for each provider. */
  lemma StepsRunOut(cfg: Config, s: State, a: Action, t: State, j: nat)
    requires cfg.Valid() && Inv(cfg, s) && Next(cfg, s, a) == Some(t) && j < |s.calls|
    ensures j < |t.calls|
    ensures CallOf(a) == Some(j) ==> Stage(cfg, t.calls[j].pc) < Stage(cfg, s.calls[j].pc)
    ensures CallOf(a) != Some(j) ==> t.calls[j] == s.calls[j]
  {
    hide Stored, Rotation, Genuine, Failing;
    assert s.calls[j] in s.calls;
  }

  /** A call that has not returned can always take its next step, whatever the others do. */
  lemma CallCanStep(cfg: Config, s: State, j: nat, reply: Reply) returns (a: Action)
    requires cfg.Valid() && Inv(cfg, s) && j < |s.calls| && !s.calls[j].pc.Returned?
    ensures CallOf(a) == Some(j) && Next(cfg, s, a).Some? && (a.Ask? ==> a.reply == reply)
  {
    var c := s.calls[j];
    match c.pc
    case Lookup => a := Look(j);
    case ReadCurrent => a := Begin(j);
    case Try(_) => a := Ask(j, reply);
    case Remember(_, _) => a := Settle(j);
    case Keep(v) =>
      var kept := CanMakeRoom(s.items, cfg.maxSize, s.clock);
      a := Store(j, s.clock, s.clock, kept[c.text := Item(v, s.clock + cfg.ttl)]);
      assert Stored(s.items, cfg.maxSize, cfg.ttl, c.text, v, s.clock, s.clock, a.after);
  }

  // ---------------------------------------------------------------- how old a hit can be

  /** Every item was stored, with its value, one lifetime before its expiry; nothing was stored in the future. */
  ghost predicate Dated(cfg: Config, s: State) {
    && (forall k :: k in s.items ==> Stamp(k, s.items[k].value, s.items[k].expiresAt - cfg.ttl) in s.stored)
    && (forall stamp :: stamp in s.stored ==> stamp.at <= s.clock)
  }

  lemma StoreDates(cfg: Config, s: State, a: Action, t: State)
    requires cfg.Valid() && Inv(cfg, s) && Dated(cfg, s) && a.Store? && Next(cfg, s, a) == Some(t)
    ensures Dated(cfg, t)
  {
    var c := s.calls[a.j];
    hide Stored;
    assert |s.items| <= cfg.maxSize;
    hide Inv;
    StoreStamps(cfg, s, c.text, c.pc.value, a.evictedAt, a.now, a.after);
  }

  lemma StoreStamps(cfg: Config, s: State, text: string, value: Embedding, evictedAt: int, now: int, after: Items)
    requires cfg.Valid() && Dated(cfg, s) && |s.items| <= cfg.maxSize
    requires Stored(s.items, cfg.maxSize, cfg.ttl, text, value, evictedAt, now, after)
    ensures forall k :: k in after ==>
              Stamp(k, after[k].value, after[k].expiresAt - cfg.ttl) in s.stored + {Stamp(text, value, now)}
  {
    StoringKeepsBound(s.items, cfg.maxSize, cfg.ttl, text, value, evictedAt, now, after);
    hide Stored;
  }

  lemma NextDates(cfg: Config, s: State, a: Action, t: State)
    requires cfg.Valid() && Inv(cfg, s) && Dated(cfg, s) && Next(cfg, s, a) == Some(t)
    ensures Dated(cfg, t)
  {
    if a.Store? {
      StoreDates(cfg, s, a, t);
    } else {
      hide Stored, Inv;
      assert t.items == s.items && t.stored == s.stored && s.clock <= t.clock;
    }
  }

  lemma {:induction false} RunDates(cfg: Config, s: State, run: seq<Action>)
    requires cfg.Valid() && Inv(cfg, s) && Dated(cfg, s) && Run(cfg, s, run).Some?
    ensures Dated(cfg, Run(cfg, s, run).value)
    decreases run
  {
    if run != [] {
      hide Inv, Dated, Next;
      var t := Next(cfg, s, run[0]).value;
      NextKeeps(cfg, s, run[0], t);
      NextDates(cfg, s, run[0], t);
      RunDates(cfg, t, run[1..]);
    }
  }

  /** The lookup of call `j` finds an item. */
  predicate Hits(s: State, j: nat) {
    && j < |s.calls| && s.calls[j].pc.Lookup?
    && s.calls[j].text in s.items && !Expired(s.items[s.calls[j].text], s.clock)
  }

  /** The value was stored under that text at most one lifetime ago. */
  ghost predicate StoredLately(cfg: Config, s: State, text: string, v: Embedding) {
    exists at :: Stamp(text, v, at) in s.stored && at <= s.clock <= at + cfg.ttl
  }

  lemma HitIsFresh(cfg: Config, s: State, j: nat)
    requires Dated(cfg, s) && Hits(s, j)
    ensures StoredLately(cfg, s, s.calls[j].text, s.items[s.calls[j].text].value)
  {
    var text := s.calls[j].text;
    var at := s.items[text].expiresAt - cfg.ttl;
    assert Stamp(text, s.items[text].value, at) in s.stored;
  }

  /** In every interleaving, what a lookup finds and the call returns was stored under that text, with that
      value, at most one lifetime before. */
  lemma HitsAreFresh(cfg: Config, run: seq<Action>, j: nat)
    requires cfg.Valid() && Run(cfg, Init(), run).Some? && Hits(Run(cfg, Init(), run).value, j)
    ensures var s := Run(cfg, Init(), run).value;
            var v := s.items[s.calls[j].text].value;
            && Next(cfg, s, Look(j)) == Some(Move(s, j, s.calls[j].(pc := Returned(Embedded(v)))))
            && StoredLately(cfg, s, s.calls[j].text, v)
  {
    hide Inv, Dated, StoredLately;
    DatedInit(cfg);
    RunDates(cfg, Init(), run);
    HitIsFresh(cfg, Run(cfg, Init(), run).value, j);
  }

  lemma DatedInit(cfg: Config)
    requires cfg.Valid()
    ensures Inv(cfg, Init()) && Dated(cfg, Init())
  {
  }

  // ---------------------------------------------------------------- whom `CurrentProvider` names

  /** The provider has answered some call. */
  ghost predicate HasAnswered(answers: set<Answer>, p: nat) {
    exists text, v :: Answer(text, p, Embedded(v)) in answers
  }

  ghost predicate WellChosen(s: State) {
    && (s.current == 0 || HasAnswered(s.answers, s.current))
    && (forall c :: c in s.calls && c.pc.Remember? ==> Answer(c.text, c.pc.provider, Embedded(c.pc.value)) in s.answers)
  }

  lemma NextChooses(cfg: Config, s: State, a: Action, t: State)
    requires cfg.Valid() && WellChosen(s) && Next(cfg, s, a) == Some(t)
    ensures WellChosen(t)
  {
    hide Stored, HasAnswered;
    assert s.answers <= t.answers;
    Chosen(s.answers, t.answers, s.current);
    match a
    case Arrive(_) => assert forall c :: c in t.calls ==> c in s.calls || c == t.calls[|s.calls|];
    case Tick(_) =>
    case Settle(j) =>
      assert s.calls[j] in s.calls;
      Chooses(s.answers, s.calls[j]);
      assert forall c :: c in t.calls ==> c in s.calls || c == t.calls[j];
    case Look(j) => assert forall c :: c in t.calls ==> c in s.calls || c == t.calls[j];
    case Begin(j) => assert forall c :: c in t.calls ==> c in s.calls || c == t.calls[j];
    case Ask(j, _) => assert forall c :: c in t.calls ==> c in s.calls || c == t.calls[j];
    case Store(j, _, _, _) => assert forall c :: c in t.calls ==> c in s.calls || c == t.calls[j];
  }

  lemma Chosen(answers: set<Answer>, more: set<Answer>, p: nat)
    requires answers <= more
    ensures HasAnswered(answers, p) ==> HasAnswered(more, p)
  {
  }

  lemma Chooses(answers: set<Answer>, c: Call)
    requires c.pc.Remember? && Answer(c.text, c.pc.provider, Embedded(c.pc.value)) in answers
    ensures HasAnswered(answers, c.pc.provider)
  {
  }

  lemma {:induction false} RunChooses(cfg: Config, s: State, run: seq<Action>)
    requires cfg.Valid() && WellChosen(s) && Run(cfg, s, run).Some?
    ensures WellChosen(Run(cfg, s, run).value)
    decreases run
  {
    if run != [] {
      hide WellChosen, Next;
      var t := Next(cfg, s, run[0]).value;
      NextChooses(cfg, s, run[0], t);
      RunChooses(cfg, t, run[1..]);
    }
  }

  /** In every interleaving `CurrentProvider` reads the list of providers inside its bounds, and names the
      first one or one that has answered some call. */
  lemma CurrentIsSafe(cfg: Config, run: seq<Action>)
    requires cfg.Valid() && Run(cfg, Init(), run).Some?
    ensures var s := Run(cfg, Init(), run).value;
            s.current < cfg.providers && (s.current == 0 || HasAnswered(s.answers, s.current))
  {
    AlwaysBounded(cfg, run);
    RunChooses(cfg, Init(), run);
  }

  /** The provider of the call that has settled last; `first` where none has. */
  ghost function LastSettled(cfg: Config, s: State, first: nat, run: seq<Action>): nat
    requires cfg.Valid() && Run(cfg, s, run).Some?
    decreases run
  {
    if run == [] then first else
      var last := if run[0].Settle? then s.calls[run[0].j].pc.provider else first;
      LastSettled(cfg, Next(cfg, s, run[0]).value, last, run[1..])
  }

  lemma {:induction false} CurrentIsFrom(cfg: Config, s: State, run: seq<Action>)
    requires cfg.Valid() && Run(cfg, s, run).Some?
    ensures Run(cfg, s, run).value.current == LastSettled(cfg, s, s.current, run)
    decreases run
  {
    if run != [] {
      CurrentIsFrom(cfg, Next(cfg, s, run[0]).value, run[1..]);
    }
  }

  /** In every interleaving the current provider is the one that answered the call that has settled last, at
      first the first one; and a call that begins asks it first. */
  lemma CurrentSettledLast(cfg: Config, run: seq<Action>, j: nat)
    requires cfg.Valid() && Run(cfg, Init(), run).Some?
    ensures var s := Run(cfg, Init(), run).value;
            && s.current == LastSettled(cfg, Init(), 0, run)
            && (Next(cfg, s, Begin(j)).Some? ==> Next(cfg, s, Begin(j)).value.calls[j].start == s.current)
            && (Next(cfg, s, Settle(j)).Some? ==>
                  HasAnsweredText(s.answers, s.calls[j].text, Next(cfg, s, Settle(j)).value.current))
  {
    CurrentIsFrom(cfg, Init(), run);
    AlwaysBounded(cfg, run);
    RunChooses(cfg, Init(), run);
  }

  ghost predicate HasAnsweredText(answers: set<Answer>, text: string, p: nat) {
    exists v :: Answer(text, p, Embedded(v)) in answers
  }

  // ---------------------------------------------------------------- one call alone

  /** How far a call has got whose steps followed each other from `s`, at its lookup, to `t`; `replies` is
      what the providers asked so far have answered. */
  ghost predicate Alone(cfg: Config, s: State, j: nat, t: State, replies: seq<Reply>)
    requires cfg.Valid()
  {
    && j < |s.calls| == |t.calls| && |replies| == cfg.providers && s.current < cfg.providers
    && t.calls[j].text == s.calls[j].text
    && match t.calls[j].pc
       case Lookup => s == t
       case ReadCurrent => Missed(s, j) && Same(s, t) && t.calls[j].failed == []
       case Try(k) =>
         && Missed(s, j) && Same(s, t) && AloneFailed(cfg, s, t.calls[j], replies) && k == |t.calls[j].failed|
         && Recorded(t.answers, t.calls[j].text, replies, t.calls[j].failed)
       case Remember(p, v) =>
         && Missed(s, j) && Same(s, t) && AloneAnswered(cfg, s, t.calls[j], replies, p, v)
         && Recorded(t.answers, t.calls[j].text, replies, t.calls[j].failed + [p])
       case Keep(v) =>
         && Missed(s, j) && t.items == s.items && t.clock == s.clock
         && AloneAnswered(cfg, s, t.calls[j], replies, t.current, v)
         && Recorded(t.answers, t.calls[j].text, replies, t.calls[j].failed + [t.current])
       case Returned(r) =>
         exists asked, evict, store ::
           && EmbedDoes(s.items, s.current, cfg.maxSize, cfg.ttl, s.calls[j].text, replies, Times(s.clock, evict, store),
                        r, asked, t.items, t.current)
           && Recorded(t.answers, s.calls[j].text, replies, asked)
  }

  /** These providers have answered so to this text. */
  ghost predicate Recorded(answers: set<Answer>, text: string, replies: seq<Reply>, asked: seq<nat>) {
    forall k :: 0 <= k < |asked| ==> asked[k] < |replies| && Answer(text, asked[k], replies[asked[k]]) in answers
  }

  ghost predicate Missed(s: State, j: nat)
    requires j < |s.calls|
  {
    !(s.calls[j].text in s.items && !Expired(s.items[s.calls[j].text], s.clock))
  }

  ghost predicate Same(s: State, t: State) {
    t.items == s.items && t.current == s.current && t.clock == s.clock
  }

  ghost predicate AloneFailed(cfg: Config, s: State, c: Call, replies: seq<Reply>)
    requires cfg.Valid() && |replies| == cfg.providers
  {
    && c.start == s.current && |c.failed| <= cfg.providers && c.failed == Rotation(c.start, |c.failed|, cfg.providers)
    && forall k :: 0 <= k < |c.failed| ==> replies[c.failed[k]].Failed?
  }

  ghost predicate AloneAnswered(cfg: Config, s: State, c: Call, replies: seq<Reply>, p: nat, v: Embedding)
    requires cfg.Valid() && |replies| == cfg.providers
  {
    && AloneFailed(cfg, s, c, replies) && |c.failed| < cfg.providers
    && p == (c.start + |c.failed|) % cfg.providers && replies[p] == Embedded(v)
  }

  /** What has been asked so far, with one more. */
  lemma AskedMore(cfg: Config, s: State, c: Call, replies: seq<Reply>, reply: Reply)
    requires cfg.Valid() && |replies| == cfg.providers && s.current < cfg.providers
    requires AloneFailed(cfg, s, c, replies) && |c.failed| < cfg.providers
    ensures var n := cfg.providers;
            var i := (c.start + |c.failed|) % n;
            && AloneFailed(cfg, s, c, replies[i := reply])
            && c.failed + [i] == Rotation(c.start, |c.failed| + 1, n)
            && (reply.Failed? ==> AloneFailed(cfg, s, c.(failed := c.failed + [i]), replies[i := reply]))
            && forall k :: 0 <= k < |c.failed| ==> c.failed[k] < n && c.failed[k] != i
  {
    var n := cfg.providers;
    var i, more := (c.start + |c.failed|) % n, replies[(c.start + |c.failed|) % n := reply];
    RotationIsDistinct(c.start, |c.failed| + 1, n);
    var all := Rotation(c.start, |c.failed| + 1, n);
    assert c.failed + [i] == all;
    forall k | 0 <= k < |c.failed|
      ensures c.failed[k] < n && c.failed[k] != i && more[c.failed[k]].Failed?
    {
      assert c.failed[k] == all[k] && all[|c.failed|] == i;
    }
  }

  lemma RecordedMore(answers: set<Answer>, more: set<Answer>, text: string, replies: seq<Reply>, asked: seq<nat>,
                     i: nat, reply: Reply)
    requires Recorded(answers, text, replies, asked) && answers <= more && Answer(text, i, reply) in more
    requires i < |replies| && forall k :: 0 <= k < |asked| ==> asked[k] != i
    ensures Recorded(more, text, replies[i := reply], asked + [i])
  {
    var all := asked + [i];
    forall k | 0 <= k < |all|
      ensures all[k] < |replies| && Answer(text, all[k], replies[i := reply][all[k]]) in more
    {
      if k < |asked| {
        assert all[k] == asked[k];
      }
    }
  }

  /** The provider asked at step `k` fails, and so do all: `Embed` fails and leaves everything as it was. */
  lemma AllHaveFailed(cfg: Config, s: State, j: nat, c: Call, replies: seq<Reply>, t: State)
    requires cfg.Valid() && j < |s.calls| && Missed(s, j) && Same(s, t) && |replies| == cfg.providers
    requires AloneFailed(cfg, s, c, replies) && |c.failed| == cfg.providers
    ensures EmbedDoes(s.items, s.current, cfg.maxSize, cfg.ttl, s.calls[j].text, replies, Times(s.clock, 0, 0),
                      Reply.Failed(AllProvidersFailed(replies[c.failed[|c.failed| - 1]].err)), c.failed, t.items, t.current)
  {
  }

  lemma AskAlone(cfg: Config, s: State, j: nat, t: State, replies: seq<Reply>, reply: Reply, u: State)
    requires cfg.Valid() && Inv(cfg, t) && Alone(cfg, s, j, t, replies) && Next(cfg, t, Ask(j, reply)) == Some(u)
    ensures var i := (t.calls[j].start + |t.calls[j].failed|) % cfg.providers;
            i < |replies| && Alone(cfg, s, j, u, replies[i := reply])
  {
    hide Inv, EmbedDoes;
    var c := t.calls[j];
    assert c in t.calls && CallOk(cfg, t.answers, c) by {
      InvCalls(cfg, t, j);
    }
    hide CallOk;
    AskedMore(cfg, s, c, replies, reply);
    var i := (c.start + |c.failed|) % cfg.providers;
    RecordedMore(t.answers, u.answers, c.text, replies, c.failed, i, reply);
    hide Recorded;
    if reply.Failed? && |c.failed| + 1 == cfg.providers {
      AllHaveFailed(cfg, s, j, u.calls[j], replies[i := reply], u);
    }
  }

  lemma InvCalls(cfg: Config, s: State, j: nat)
    requires cfg.Valid() && Inv(cfg, s) && j < |s.calls|
    ensures CallOk(cfg, s.answers, s.calls[j])
    ensures s.calls[j].pc.Try? ==> s.calls[j].pc.offset == |s.calls[j].failed| < cfg.providers
  {
    assert s.calls[j] in s.calls;
  }

  lemma StoreAlone(cfg: Config, s: State, j: nat, t: State, replies: seq<Reply>, a: Action, u: State)
    requires cfg.Valid() && Alone(cfg, s, j, t, replies)
    requires a.Store? && a.j == j && Next(cfg, t, a) == Some(u)
    ensures Alone(cfg, s, j, u, replies)
  {
    hide Stored, Recorded;
    var c, v := t.calls[j], t.calls[j].pc.value;
    var asked := c.failed + [t.current];
    assert asked == Rotation(c.start, |asked|, cfg.providers);
    assert AskedInRotation(replies, s.current, Embedded(v), asked);
    assert EmbedDoes(s.items, s.current, cfg.maxSize, cfg.ttl, c.text, replies, Times(s.clock, a.evictedAt, a.now),
                     Embedded(v), asked, u.items, u.current);
  }

  lemma LookAlone(cfg: Config, s: State, j: nat, t: State, replies: seq<Reply>, u: State)
    requires cfg.Valid() && Alone(cfg, s, j, t, replies) && Next(cfg, t, Look(j)) == Some(u)
    requires t.calls[j].failed == []
    ensures Alone(cfg, s, j, u, replies)
  {
    if !Missed(s, j) {
      assert Recorded(u.answers, s.calls[j].text, replies, []);
      assert EmbedDoes(s.items, s.current, cfg.maxSize, cfg.ttl, s.calls[j].text, replies, Times(s.clock, 0, 0),
                       Embedded(s.items[s.calls[j].text].value), [], u.items, u.current);
    }
  }

  lemma AloneNext(cfg: Config, s: State, j: nat, t: State, replies: seq<Reply>, a: Action, u: State)
    returns (more: seq<Reply>)
    requires cfg.Valid() && Inv(cfg, t) && Alone(cfg, s, j, t, replies)
    requires CallOf(a) == Some(j) && Next(cfg, t, a) == Some(u)
    ensures Alone(cfg, s, j, u, more)
  {
    more := replies;
    InvCalls(cfg, t, j);
    match a
    case Look(_) => LookAlone(cfg, s, j, t, replies, u);
    case Ask(_, reply) =>
      AskAlone(cfg, s, j, t, replies, reply, u);
      more := replies[(t.calls[j].start + |t.calls[j].failed|) % cfg.providers := reply];
    case Store(_, _, _, _) => StoreAlone(cfg, s, j, t, replies, a, u);
    case Begin(_) =>
      hide Inv, CallOk, EmbedDoes;
      assert Rotation(s.current, 0, cfg.providers) == [];
    case Settle(_) =>
      hide Inv, CallOk, EmbedDoes;
  }

  lemma {:induction false} AloneRun(cfg: Config, s: State, j: nat, t: State, replies: seq<Reply>, run: seq<Action>)
    returns (more: seq<Reply>)
    requires cfg.Valid() && Inv(cfg, t) && Alone(cfg, s, j, t, replies) && Run(cfg, t, run).Some?
    requires forall a :: a in run ==> CallOf(a) == Some(j)
    ensures Alone(cfg, s, j, Run(cfg, t, run).value, more)
    decreases run
  {
    more := replies;
    if run != [] {
      hide Inv, Alone, Next;
      var u := Next(cfg, t, run[0]).value;
      NextKeeps(cfg, t, run[0], u);
      assert run[0] in run;
      more := AloneNext(cfg, s, j, t, replies, run[0], u);
      more := AloneRun(cfg, s, j, u, more, run[1..]);
    }
  }

  /** A call whose steps follow each other, from whatever state other calls have led to, does what `Embed` of
      the sequential manager does there, with the answers that the providers gave. */
  lemma AloneIsEmbed(cfg: Config, before: seq<Action>, j: nat, run: seq<Action>)
    requires cfg.Valid() && Run(cfg, Init(), before).Some? && Run(cfg, Run(cfg, Init(), before).value, run).Some?
    requires forall a :: a in run ==> CallOf(a) == Some(j)
    requires var s, t := Run(cfg, Init(), before).value, Run(cfg, Run(cfg, Init(), before).value, run).value;
             j < |s.calls| && s.calls[j].pc.Lookup? && j < |t.calls| && t.calls[j].pc.Returned?
    ensures var s, t := Run(cfg, Init(), before).value, Run(cfg, Run(cfg, Init(), before).value, run).value;
            exists replies: seq<Reply>, asked, evict, store ::
              && |replies| == cfg.providers
              && EmbedDoes(s.items, s.current, cfg.maxSize, cfg.ttl, s.calls[j].text, replies, Times(s.clock, evict, store),
                           t.calls[j].pc.reply, asked, t.items, t.current)
              && Recorded(t.answers, s.calls[j].text, replies, asked)
  {
    var s := Run(cfg, Init(), before).value;
    RunKeeps(cfg, Init(), before);
    InvCalls(cfg, s, j);
    var replies := AloneRun(cfg, s, j, s, seq(cfg.providers, _ => Reply.Failed(Cancelled)), run);
    hide EmbedDoes, Recorded, Inv, Run;
  }
}
