/**
 The capability registry of pkg/clihub/capability.go: a list with three index maps built beside it, looked
 up by harness and by action, and ranked for a query. How a query scores a capability, and which keywords a
 command gives, are parameters.
 */
module CapabilityRegistry {
  import opened ExchangeSort
  import opened Text
  import opened Wrappers

  datatype Capability = Capability(harness: string, group: string, command: string, action: string,
    keywords: seq<string>, category: string)

  datatype Command = Command(group: string, name: string, description: string)

  datatype CatalogEntry = CatalogEntry(name: string, category: string)

  type Index = map<string, seq<nat>>

  function At(index: Index, key: string): seq<nat> {
    if key in index then index[key] else []
  }

  function Append(index: Index, key: string, i: nat): Index {
    index[key := At(index, key) + [i]]
  }

  // ---------------------------------------------------------------- what the maps should hold

  function ByHarness(caps: seq<Capability>, key: string): seq<nat> {
    if caps == [] then [] else
      var n := |caps| - 1;
      ByHarness(caps[..n], key) + if Lower(caps[n].harness) == key then [n] else []
  }

  function ByAction(caps: seq<Capability>, key: string): seq<nat> {
    if caps == [] then [] else
      var n := |caps| - 1;
      ByAction(caps[..n], key) + if caps[n].group != "" && Lower(caps[n].group) == key then [n] else []
  }

  /** `n`, once for every keyword that lower-cases to `key`. */
  function Occurrences(keywords: seq<string>, key: string, n: nat): seq<nat> {
    if keywords == [] then [] else
      var k := |keywords| - 1;
      Occurrences(keywords[..k], key, n) + if Lower(keywords[k]) == key then [n] else []
  }

  function ByKeyword(caps: seq<Capability>, key: string): seq<nat> {
    if caps == [] then [] else
      var n := |caps| - 1;
      ByKeyword(caps[..n], key) + Occurrences(caps[n].keywords, key, n)
  }

  /** The capabilities whose harness is `harness` but for the case of letters, in order. */
  function WithHarness(caps: seq<Capability>, harness: string): seq<Capability> {
    if caps == [] then [] else
      (if Lower(caps[0].harness) == Lower(harness) then [caps[0]] else []) + WithHarness(caps[1..], harness)
  }

  /** The capabilities whose group is `action` but for the case of letters, in order; none without a group. */
  function WithAction(caps: seq<Capability>, action: string): seq<Capability> {
    if caps == [] then [] else
      (if caps[0].group != "" && Lower(caps[0].group) == Lower(action) then [caps[0]] else []) +
      WithAction(caps[1..], action)
  }

  function Pick(caps: seq<Capability>, indices: seq<nat>): seq<Capability>
    requires forall i :: i in indices ==> i < |caps|
  {
    seq(|indices|, k requires 0 <= k < |indices| => assert indices[k] in indices; caps[indices[k]])
  }

  lemma {:induction false} HarnessAppend(caps: seq<Capability>, c: Capability, harness: string)
    ensures WithHarness(caps + [c], harness) ==
            WithHarness(caps, harness) + if Lower(c.harness) == Lower(harness) then [c] else []
  {
    if caps == [] {
      assert caps + [c] == [c];
    } else {
      HarnessAppend(caps[1..], c, harness);
      assert (caps + [c])[1..] == caps[1..] + [c];
    }
  }

  lemma {:induction false} ActionAppend(caps: seq<Capability>, c: Capability, action: string)
    ensures WithAction(caps + [c], action) ==
            WithAction(caps, action) + if c.group != "" && Lower(c.group) == Lower(action) then [c] else []
  {
    if caps == [] {
      assert caps + [c] == [c];
    } else {
      ActionAppend(caps[1..], c, action);
      assert (caps + [c])[1..] == caps[1..] + [c];
    }
  }

  lemma PickMore(caps: seq<Capability>, c: Capability, indices: seq<nat>)
    requires forall i :: i in indices ==> i < |caps|
    ensures Pick(caps + [c], indices) == Pick(caps, indices)
    ensures Pick(caps + [c], indices + [|caps|]) == Pick(caps, indices) + [c]
  {
    assert forall k :: 0 <= k < |indices| ==> indices[k] in indices;
  }

  /** Looking up positions and picking them out is filtering the list. */
  lemma {:induction false} HarnessLookup(caps: seq<Capability>, harness: string)
    ensures forall i :: i in ByHarness(caps, Lower(harness)) ==> i < |caps|
    ensures Pick(caps, ByHarness(caps, Lower(harness))) == WithHarness(caps, harness)
  {
    hide Lower;
    if caps != [] {
      var n := |caps| - 1;
      hide Pick, WithHarness;
      HarnessLookup(caps[..n], harness);
      HarnessAppend(caps[..n], caps[n], harness);
      PickMore(caps[..n], caps[n], ByHarness(caps[..n], Lower(harness)));
      assert caps == caps[..n] + [caps[n]];
    }
  }

  lemma {:induction false} ActionLookup(caps: seq<Capability>, action: string)
    ensures forall i :: i in ByAction(caps, Lower(action)) ==> i < |caps|
    ensures Pick(caps, ByAction(caps, Lower(action))) == WithAction(caps, action)
  {
    hide Lower;
    if caps != [] {
      var n := |caps| - 1;
      hide Pick, WithAction;
      ActionLookup(caps[..n], action);
      ActionAppend(caps[..n], caps[n], action);
      PickMore(caps[..n], caps[n], ByAction(caps[..n], Lower(action)));
      assert caps == caps[..n] + [caps[n]];
    }
  }

  // ---------------------------------------------------------------- ranking

  /** The capabilities that score, in registry order. */
  function Scored(caps: seq<Capability>, score: Capability -> int): seq<Entry<Capability>> {
    if caps == [] then [] else
      var c := caps[|caps| - 1];
      Scored(caps[..|caps| - 1], score) + if score(c) > 0 then [Entry(c, score(c) as real)] else []
  }

  /** How one query scores. */
  function For(score: (string, Capability) -> int, query: string): Capability -> int {
    c => score(query, c)
  }

  function Values<T>(es: seq<Entry<T>>): seq<T> {
    seq(|es|, k requires 0 <= k < |es| => es[k].value)
  }

  /** `f` is the first place in the registry with the highest score, which is positive. */
  predicate BestAt(caps: seq<Capability>, score: Capability -> int, f: nat) {
    && f < |caps| && score(caps[f]) > 0
    && (forall k :: 0 <= k < |caps| ==> score(caps[k]) <= score(caps[f]))
    && (forall k :: 0 <= k < f ==> score(caps[k]) < score(caps[f]))
  }

  /** `at` lists the places in the registry of the entries `es`, which are those that score. */
  predicate Places(caps: seq<Capability>, score: Capability -> int, es: seq<Entry<Capability>>, at: seq<nat>) {
    && |at| == |es|
    && (forall k :: 0 <= k < |at| ==> at[k] < |caps| && score(caps[at[k]]) > 0
                                      && es[k] == Entry(caps[at[k]], score(caps[at[k]]) as real))
    && (forall k, l :: 0 <= k < l < |at| ==> at[k] < at[l])
    && (forall p :: 0 <= p < |caps| && score(caps[p]) > 0 ==> p in at)
  }

  lemma {:induction false} ScoredPlaces(caps: seq<Capability>, score: Capability -> int) returns (at: seq<nat>)
    ensures Places(caps, score, Scored(caps, score), at)
  {
    if caps == [] {
      return [];
    }
    var n := |caps| - 1;
    at := ScoredPlaces(caps[..n], score);
    PlacesGrow(caps, score, Scored(caps[..n], score), at);
    if score(caps[n]) > 0 {
      at := at + [n];
    }
  }

  lemma PlacesGrow(caps: seq<Capability>, score: Capability -> int, es: seq<Entry<Capability>>, at: seq<nat>)
    requires caps != [] && Places(caps[..|caps| - 1], score, es, at)
    ensures var n := |caps| - 1;
            if score(caps[n]) > 0 then Places(caps, score, es + [Entry(caps[n], score(caps[n]) as real)], at + [n])
            else Places(caps, score, es, at)
  {
    var n := |caps| - 1;
    if score(caps[n]) > 0 {
      var more := at + [n];
      assert more[|at|] == n;
      forall p | 0 <= p < |caps| && score(caps[p]) > 0
        ensures p in more
      {
        assert p < n ==> caps[..n][p] == caps[p] && p in at;
      }
    }
  }

  /** The best match is the first capability, in registry order, with the highest positive score; there is
      none exactly when nothing scores. */
  lemma BestIsFirstHighest(caps: seq<Capability>, score: Capability -> int) returns (f: nat)
    ensures var es := Scored(caps, score);
            if es == [] then forall k :: 0 <= k < |caps| ==> score(caps[k]) <= 0
            else BestAt(caps, score, f) && Sort(es, 0)[0].value == caps[f]
  {
    hide Scored, Sort;
    var es := Scored(caps, score);
    var at := ScoredPlaces(caps, score);
    if es == [] {
      return 0;
    }
    var g := HeadIsFirstHighest(es);
    f := at[g];
    forall k | 0 <= k < |caps|
      ensures score(caps[k]) <= score(caps[f])
      ensures k < f ==> score(caps[k]) < score(caps[f])
    {
      if score(caps[k]) > 0 {
        var j :| 0 <= j < |at| && at[j] == k;
        assert es[j].score <= es[g].score;
        assert k < f ==> j < g && es[j].score < es[g].score;
      }
    }
  }

  /** What `FindByIntent` returns is sorted by score and holds exactly the capabilities that score. */
  lemma IntentIsRanking(caps: seq<Capability>, score: Capability -> int)
    ensures var sorted := Sort(Scored(caps, score), 0);
            && multiset(sorted) == multiset(Scored(caps, score))
            && (forall k, l :: 0 <= k < l < |sorted| ==> score(sorted[l].value) <= score(sorted[k].value))
            && (forall k :: 0 <= k < |sorted| ==> score(sorted[k].value) > 0 && sorted[k].value in caps)
  {
    var es := Scored(caps, score);
    var sorted := Sort(es, 0);
    var at := ScoredPlaces(caps, score);
    SortIsDescendingPermutation(es);
    forall k | 0 <= k < |sorted|
      ensures sorted[k].value in caps && score(sorted[k].value) > 0 && sorted[k].score == score(sorted[k].value) as real
    {
      assert sorted[k] in multiset(sorted) && sorted[k] in multiset(es);
    }
  }

  // ---------------------------------------------------------------- keeping the maps

  ghost predicate HarnessesIndexed(index: Index, caps: seq<Capability>) {
    forall key :: At(index, key) == ByHarness(caps, key)
  }

  ghost predicate ActionsIndexed(index: Index, caps: seq<Capability>) {
    forall key :: At(index, key) == ByAction(caps, key)
  }

  ghost predicate KeywordsIndexed(index: Index, caps: seq<Capability>) {
    forall key :: At(index, key) == ByKeyword(caps, key)
  }

  /** `after` is `before` with `n` added for the keywords. */
  ghost predicate KeywordsAdded(before: Index, after: Index, keywords: seq<string>, n: nat) {
    forall key :: At(after, key) == At(before, key) + Occurrences(keywords, key, n)
  }

  lemma HarnessIndexGrows(index: Index, caps: seq<Capability>, c: Capability)
    requires HarnessesIndexed(index, caps)
    ensures HarnessesIndexed(Append(index, Lower(c.harness), |caps|), caps + [c])
  {
    assert (caps + [c])[..|caps|] == caps;
  }

  lemma ActionIndexGrows(index: Index, caps: seq<Capability>, c: Capability)
    requires ActionsIndexed(index, caps)
    ensures ActionsIndexed(if c.group != "" then Append(index, Lower(c.group), |caps|) else index, caps + [c])
  {
    var after := if c.group != "" then Append(index, Lower(c.group), |caps|) else index;
    assert (caps + [c])[..|caps|] == caps;
    forall key
      ensures At(after, key) == ByAction(caps + [c], key)
    {
      assert At(after, key) == At(index, key) + if c.group != "" && Lower(c.group) == key then [|caps|] else [];
    }
  }

  lemma KeywordIndexGrows(index: Index, after: Index, caps: seq<Capability>, c: Capability)
    requires KeywordsIndexed(index, caps) && KeywordsAdded(index, after, c.keywords, |caps|)
    ensures KeywordsIndexed(after, caps + [c])
  {
    assert (caps + [c])[..|caps|] == caps;
  }

  lemma AppendAt(index: Index, at: string, n: nat, key: string)
    ensures At(Append(index, at, n), key) == At(index, key) + if at == key then [n] else []
  {
  }

  lemma OneKeywordMore(before: Index, index: Index, keywords: seq<string>, k: nat, n: nat)
    requires k < |keywords| && KeywordsAdded(before, index, keywords[..k], n)
    ensures KeywordsAdded(before, Append(index, Lower(keywords[k]), n), keywords[..k + 1], n)
  {
    assert keywords[..k + 1][..k] == keywords[..k];
    hide Lower, At, Append;
    var at := Lower(keywords[k]);
    forall key
      ensures At(Append(index, at, n), key) == At(before, key) + Occurrences(keywords[..k + 1], key, n)
    {
      AppendAt(index, at, n, key);
    }
  }

  // ---------------------------------------------------------------- the object

  class Registry {
    var capabilities: seq<Capability>
    var harnessIndex: Index
    var keywordIndex: Index
    var actionIndex: Index

    ghost predicate Valid()
      reads this
    {
      && HarnessesIndexed(harnessIndex, capabilities)
      && ActionsIndexed(actionIndex, capabilities)
      && KeywordsIndexed(keywordIndex, capabilities)
    }

    constructor ()
      ensures Valid() && capabilities == []
    {
      capabilities := [];
      harnessIndex := map[];
      keywordIndex := map[];
      actionIndex := map[];
    }

    /** One turn of the inner loop of `LoadCapabilityRegistry`. */
    method Add(c: Capability)
      requires Valid()
      modifies this
      ensures Valid() && capabilities == old(capabilities) + [c]
    {
      hide HarnessesIndexed, ActionsIndexed, KeywordsIndexed, KeywordsAdded;
      HarnessIndexGrows(harnessIndex, capabilities, c);
      ActionIndexGrows(actionIndex, capabilities, c);
      var n := |capabilities|;
      harnessIndex := Append(harnessIndex, Lower(c.harness), n);
      AddKeywords(c.keywords, n);
      if c.group != "" {
        actionIndex := Append(actionIndex, Lower(c.group), n);
      }
      KeywordIndexGrows(old(keywordIndex), keywordIndex, capabilities, c);
      capabilities := capabilities + [c];
    }

    method AddKeywords(keywords: seq<string>, n: nat)
      modifies this`keywordIndex
      ensures KeywordsAdded(old(keywordIndex), keywordIndex, keywords, n)
    {
      assert KeywordsAdded(keywordIndex, keywordIndex, keywords[..0], n);
      hide KeywordsAdded;
      for k := 0 to |keywords|
        invariant KeywordsAdded(old(keywordIndex), keywordIndex, keywords[..k], n)
      {
        OneKeywordMore(old(keywordIndex), keywordIndex, keywords, k, n);
        keywordIndex := Append(keywordIndex, Lower(keywords[k]), n);
      }
      assert keywords[..|keywords|] == keywords;
    }

    /** `FindByHarness` by the index is a filter of the list, up to the case of letters, in its order. */
    method FindByHarness(harness: string) returns (r: seq<Capability>)
      requires Valid()
      ensures r == WithHarness(capabilities, harness)
    {
      var key := Lower(harness);
      HarnessLookup(capabilities, harness);
      assert At(harnessIndex, key) == ByHarness(capabilities, key);
      r := [];
      if key in harnessIndex {
        r := Gather(harnessIndex[key]);
      }
    }

    method FindByAction(action: string) returns (r: seq<Capability>)
      requires Valid()
      ensures r == WithAction(capabilities, action)
    {
      var key := Lower(action);
      ActionLookup(capabilities, action);
      assert At(actionIndex, key) == ByAction(capabilities, key);
      r := [];
      if key in actionIndex {
        r := Gather(actionIndex[key]);
      }
    }

    method Gather(indices: seq<nat>) returns (r: seq<Capability>)
      requires forall i :: i in indices ==> i < |capabilities|
      ensures r == Pick(capabilities, indices)
    {
      r := [];
      for k := 0 to |indices|
        invariant r == Pick(capabilities, indices)[..k]
      {
        assert indices[k] in indices;
        r := r + [capabilities[indices[k]]];
      }
    }

    method FindByIntent(query: string, score: (string, Capability) -> int) returns (r: seq<Capability>)
      ensures var q := Lower(Trim(query));
              r == if q == "" then [] else Values(Sort(Scored(capabilities, For(score, q)), 0))
    {
      var q := Lower(Trim(query));
      if q == "" {
        return [];
      }
      hide Sort, Scored, For, Lower, Trim;
      var scored := ScoreAll(For(score, q));
      r := SortedValues(scored);
    }

    method SortedValues(scored: seq<Entry<Capability>>) returns (r: seq<Capability>)
      ensures r == Values(Sort(scored, 0))
    {
      var a := new Entry<Capability>[|scored|](i requires 0 <= i < |scored| => scored[i]);
      assert a[..] == scored;
      SortSliceByScore(a);
      hide Sort;
      var sorted := a[..];
      r := [];
      for k := 0 to |sorted|
        invariant r == Values(sorted)[..k]
      {
        r := r + [sorted[k].value];
      }
    }

    method ScoreAll(score: Capability -> int) returns (scored: seq<Entry<Capability>>)
      ensures scored == Scored(capabilities, score)
    {
      scored := [];
      for k := 0 to |capabilities|
        invariant scored == Scored(capabilities[..k], score)
      {
        assert capabilities[..k + 1][..k] == capabilities[..k];
        var c := capabilities[k];
        if score(c) > 0 {
          scored := scored + [Entry(c, score(c) as real)];
        }
      }
      assert capabilities[..|capabilities|] == capabilities;
    }

    /** `BestMatch`: the first capability in registry order with the highest positive score. */
    method BestMatch(query: string, score: (string, Capability) -> int) returns (r: Option<Capability>)
      ensures var q := Lower(Trim(query));
              match r
              case None => q == "" || forall k :: 0 <= k < |capabilities| ==> score(q, capabilities[k]) <= 0
              case Some(c) => q != "" && exists f: nat :: BestAt(capabilities, For(score, q), f) && capabilities[f] == c
    {
      var matches := FindByIntent(query, score);
      ghost var f := BestIsFirstHighest(capabilities, For(score, Lower(Trim(query))));
      if |matches| > 0 {
        return Some(matches[0]);
      }
      r := None;
    }
  }

  // ---------------------------------------------------------------- loading

  function CapabilityOf(entry: CatalogEntry, cmd: Command, keywords: (string, Command) -> seq<string>): Capability {
    Capability(entry.name, cmd.group, cmd.name, cmd.group + " " + cmd.name, keywords(entry.name, cmd), entry.category)
  }

  function OfCommands(entry: CatalogEntry, cmds: seq<Command>, keywords: (string, Command) -> seq<string>): seq<Capability> {
    seq(|cmds|, k requires 0 <= k < |cmds| => CapabilityOf(entry, cmds[k], keywords))
  }

  function OfEntries(entries: seq<CatalogEntry>, skills: map<string, seq<Command>>, keywords: (string, Command) -> seq<string>):
    seq<Capability>
  {
    if entries == [] then [] else
      var e := entries[|entries| - 1];
      OfEntries(entries[..|entries| - 1], skills, keywords) +
      if e.name in skills then OfCommands(e, skills[e.name], keywords) else []
  }

  /** The commands of the catalog entries that have a skill, in order, each with its entry. */
  function Commands(entries: seq<CatalogEntry>, skills: map<string, seq<Command>>): seq<(CatalogEntry, Command)> {
    if entries == [] then [] else
      var e := entries[|entries| - 1];
      Commands(entries[..|entries| - 1], skills) +
      if e.name in skills then seq(|skills[e.name]|, k requires 0 <= k < |skills[e.name]| => (e, skills[e.name][k])) else []
  }

  /** There is one capability for each of them, in order, and each says what it was made from. */
  lemma {:induction false} LoadedAre(entries: seq<CatalogEntry>, skills: map<string, seq<Command>>,
                                     keywords: (string, Command) -> seq<string>)
    ensures var caps, cmds := OfEntries(entries, skills, keywords), Commands(entries, skills);
            && |caps| == |cmds|
            && forall k :: 0 <= k < |caps| ==>
                 && caps[k].harness == cmds[k].0.name && caps[k].category == cmds[k].0.category
                 && caps[k].group == cmds[k].1.group && caps[k].command == cmds[k].1.name
                 && caps[k].action == cmds[k].1.group + " " + cmds[k].1.name
                 && caps[k].keywords == keywords(cmds[k].0.name, cmds[k].1)
  {
    if entries != [] {
      LoadedAre(entries[..|entries| - 1], skills, keywords);
    }
  }

  /** `LoadCapabilityRegistry`, once the catalog and the skills have been read. */
  method LoadCapabilityRegistry(entries: seq<CatalogEntry>, skills: map<string, seq<Command>>,
                                keywords: (string, Command) -> seq<string>)
    returns (registry: Registry)
    ensures fresh(registry) && registry.Valid()
    ensures registry.capabilities == OfEntries(entries, skills, keywords)
  {
    registry := new Registry();
    for i := 0 to |entries|
      invariant fresh(registry) && registry.Valid()
      invariant registry.capabilities == OfEntries(entries[..i], skills, keywords)
    {
      assert entries[..i + 1][..i] == entries[..i];
      var entry := entries[i];
      if entry.name !in skills {
        continue;
      }
      var cmds := skills[entry.name];
      ghost var before := registry.capabilities;
      for k := 0 to |cmds|
        invariant fresh(registry) && registry.Valid()
        invariant registry.capabilities == before + OfCommands(entry, cmds, keywords)[..k]
      {
        registry.Add(CapabilityOf(entry, cmds[k], keywords));
      }
    }
    assert entries[..|entries|] == entries;
  }
}
