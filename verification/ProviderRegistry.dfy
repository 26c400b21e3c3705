/**
 The provider registry: the list of providers, the default and the agents' references in
 pkg/config/profiles.go, and the two handlers of pkg/gateway/gateway_control_plane_provider_api.go that
 change them. Of a provider only the fields that these operations look at are kept.
 */
module ProviderRegistry {
  import opened ProviderSlug
  import opened Text
  import opened Wrappers

  datatype Provider = Provider(id: string, name: string, provider: string, apiKey: string, enabled: Option<bool>)

  datatype Agent = Agent(name: string, providerRef: string)

  datatype Config = Config(providers: seq<Provider>, defaultRef: string, agents: seq<Agent>)

  datatype RegistryError = Invalid | IDRequired | NotFound | SwitchDefaultFirst

  predicate IsEnabled(p: Provider) {
    p.enabled != Some(false)
  }

  /** How IDs, names and references are compared. */
  function Folded(s: string): string {
    Lower(Trim(s))
  }

  predicate Matches(p: Provider, ref: string) {
    Folded(p.id) == Trim(Lower(ref)) || Folded(p.name) == Trim(Lower(ref))
  }

  /** The first provider that a reference matches; the length of the list if there is none. */
  function FirstMatch(ps: seq<Provider>, ref: string): (i: nat)
    ensures i <= |ps|
    decreases |ps|
  {
    if ps == [] || Matches(ps[0], ref) then 0 else 1 + FirstMatch(ps[1..], ref)
  }

  lemma {:induction false} FirstMatches(ps: seq<Provider>, ref: string)
    ensures var i := FirstMatch(ps, ref);
            && (i < |ps| ==> Matches(ps[i], ref))
            && (forall j :: 0 <= j < i ==> !Matches(ps[j], ref))
    decreases |ps|
  {
    hide Matches;
    if ps != [] && !Matches(ps[0], ref) {
      FirstMatches(ps[1..], ref);
    }
  }

  function FirstWithID(ps: seq<Provider>, id: string): (i: nat)
    ensures i <= |ps|
    decreases |ps|
  {
    if ps == [] || Folded(ps[0].id) == Lower(id) then 0 else 1 + FirstWithID(ps[1..], id)
  }

  lemma {:induction false} FirstHasID(ps: seq<Provider>, id: string)
    ensures var i := FirstWithID(ps, id);
            && (i < |ps| ==> Folded(ps[i].id) == Lower(id))
            && (forall j :: 0 <= j < i ==> Folded(ps[j].id) != Lower(id))
    decreases |ps|
  {
    hide Folded, Lower;
    if ps != [] && Folded(ps[0].id) != Lower(id) {
      FirstHasID(ps[1..], id);
    }
  }

  // ---------------------------------------------------------------- the transitions

  predicate Applies(ps: seq<Provider>, ref: string) {
    var i := FirstMatch(ps, ref);
    i < |ps| && IsEnabled(ps[i])
  }

  function SetDefault(c: Config, ref: string): Config {
    var i := FirstMatch(c.providers, ref);
    if i < |c.providers| && IsEnabled(c.providers[i]) then c.(defaultRef := c.providers[i].id) else c
  }

  function Cleaned(p: Provider): Provider {
    Provider(NormalizeProviderID(p.id, p.name), Trim(p.name), Trim(p.provider), Trim(p.apiKey), p.enabled)
  }

  predicate Acceptable(p: Provider) {
    Cleaned(p).id != "" && Cleaned(p).name != "" && Cleaned(p).provider != ""
  }

  function Put(ps: seq<Provider>, p: Provider): seq<Provider> {
    var i := FirstWithID(ps, p.id);
    if i < |ps| then ps[i := p] else ps + [p]
  }

  function Upsert(c: Config, p: Provider): Result<Config, RegistryError> {
    if Acceptable(p) then Ok(c.(providers := Put(c.providers, Cleaned(p)))) else Err(Invalid)
  }

  function Unlinked(agent: Agent, id: string): Agent {
    if Folded(agent.providerRef) == Folded(id) then agent.(providerRef := "") else agent
  }

  function Cleared(agents: seq<Agent>, id: string): (r: seq<Agent>)
    ensures |r| == |agents|
  {
    seq(|agents|, k requires 0 <= k < |agents| => Unlinked(agents[k], id))
  }

  function Without(ps: seq<Provider>, i: nat): seq<Provider>
    requires i < |ps|
  {
    ps[..i] + ps[i + 1..]
  }

  /** `DeleteProviderProfile`; `None` where nothing matches. */
  function Delete(c: Config, ref: string): Option<Config> {
    var i := FirstMatch(c.providers, ref);
    if i == |c.providers| then None else
      Some(c.(providers := Without(c.providers, i), agents := Cleared(c.agents, c.providers[i].id)))
  }

  function FirstNonEmpty(a: string, b: string): string {
    if Trim(a) != "" then Trim(a) else Trim(b)
  }

  /** The provider as the handler passes it on: enabled unless it says otherwise, with the key of the
      provider that it finds, if it brings none. */
  function Merged(c: Config, p: Provider): Provider {
    var q := if p.enabled.None? then p.(enabled := Some(true)) else p;
    var i := FirstMatch(c.providers, FirstNonEmpty(p.id, p.name));
    if i < |c.providers| && Trim(q.apiKey) == "" then q.(apiKey := c.providers[i].apiKey) else q
  }

  /** The ID of the provider that a reference finds; empty where there is none. */
  function FoundID(ps: seq<Provider>, ref: string): string {
    var i := FirstMatch(ps, ref);
    if i < |ps| then ps[i].id else ""
  }

  predicate FoundEnabled(ps: seq<Provider>, ref: string) {
    var i := FirstMatch(ps, ref);
    i < |ps| ==> IsEnabled(ps[i])
  }

  /** `handleProviderUpsert`, once the request has been decoded. */
  function HandleUpsert(c: Config, p: Provider): Result<Config, RegistryError> {
    var ref := FirstNonEmpty(p.id, p.name);
    var existing := FoundID(c.providers, ref);
    match Upsert(c, Merged(c, p))
    case Err(e) => Err(e)
    case Ok(d) =>
      var updated := FoundID(d.providers, ref);
      var was := Lower(Trim(c.defaultRef));
      if Trim(d.defaultRef) == "" && FoundEnabled(d.providers, ref) then Ok(SetDefault(d, updated))
      else if was == Lower(FirstNonEmpty(existing, updated)) || was == Lower(updated) then Ok(SetDefault(d, updated))
      else Ok(d)
  }

  /** `handleProviderDelete`. */
  function HandleDelete(c: Config, id: string): Result<Config, RegistryError> {
    var ref := Trim(id);
    var i := FirstMatch(c.providers, ref);
    if ref == "" then Err(IDRequired)
    else if i == |c.providers| then Err(NotFound)
    else
      var isDefault := Folded(c.defaultRef) == Folded(c.providers[i].id);
      if isDefault && |c.providers| > 1 then Err(SwitchDefaultFirst)
      else match Delete(c, ref)
        case None => Err(NotFound)
        case Some(d) => Ok(if isDefault then d.(defaultRef := "") else d)
  }

  datatype Operation = UpsertOne(provider: Provider) | DeleteOne(id: string) | MakeDefault(ref: string)

  /** A refused operation changes nothing. */
  function Apply(c: Config, op: Operation): Config {
    match op
    case UpsertOne(p) => (match HandleUpsert(c, p) case Ok(d) => d case Err(_) => c)
    case DeleteOne(id) => (match HandleDelete(c, id) case Ok(d) => d case Err(_) => c)
    case MakeDefault(ref) => SetDefault(c, ref)
  }

  function Run(c: Config, ops: seq<Operation>): Config
    decreases |ops|
  {
    if ops == [] then c else Apply(Run(c, ops[..|ops| - 1]), ops[|ops| - 1])
  }

  // ---------------------------------------------------------------- integrity

  /** An ID that comparing leaves alone. */
  predicate GoodID(id: string) {
    id != "" && Folded(id) == id
  }

  predicate IsID(ps: seq<Provider>, id: string) {
    exists i :: 0 <= i < |ps| && ps[i].id == id
  }

  predicate UniqueIDs(ps: seq<Provider>) {
    && (forall i :: 0 <= i < |ps| ==> GoodID(ps[i].id))
    && (forall i, j :: 0 <= i < j < |ps| ==> ps[i].id != ps[j].id)
  }

  predicate Refers(ps: seq<Provider>, ref: string) {
    ref == "" || IsID(ps, ref)
  }

  /** IDs are unique, and the default and the agents' references are empty or IDs of providers. */
  predicate Integrity(c: Config) {
    && UniqueIDs(c.providers)
    && Refers(c.providers, c.defaultRef)
    && (forall k :: 0 <= k < |c.agents| ==> Refers(c.providers, c.agents[k].providerRef))
  }

  lemma FoldedGood(id: string)
    requires Trimmed(id) && Lower(id) == id
    ensures Folded(id) == id
  {
    assert Trim(id) == id;
  }

  lemma FoldedLonger(id: string)
    requires !Trimmed(id)
    ensures |Folded(id)| < |id|
  {
  }

  lemma SetDefaultKeeps(c: Config, ref: string)
    requires Integrity(c)
    ensures Integrity(SetDefault(c, ref))
  {
    hide GoodID, Matches;
  }

  /** Replacing or adding a provider under a good ID keeps IDs unique, and keeps every ID there was. */
  lemma PutKeeps(ps: seq<Provider>, p: Provider)
    requires UniqueIDs(ps) && GoodID(p.id) && Lower(p.id) == p.id
    ensures UniqueIDs(Put(ps, p)) && IsID(Put(ps, p), p.id)
    ensures forall id :: IsID(ps, id) ==> IsID(Put(ps, p), id)
  {
    var qs, i := Put(ps, p), FirstWithID(ps, p.id);
    FirstHasID(ps, p.id);
    hide Folded, FirstWithID, Lower;
    if i < |ps| {
      assert GoodID(ps[i].id) && ps[i].id == p.id && qs[i] == p;
    } else {
      assert forall j :: 0 <= j < |ps| ==> GoodID(ps[j].id) && ps[j].id != p.id;
      assert qs[|ps|] == p;
    }
    forall id | IsID(ps, id)
      ensures IsID(qs, id)
    {
      var j :| 0 <= j < |ps| && ps[j].id == id;
      assert qs[j].id == id;
    }
  }

  lemma RefersMore(ps: seq<Provider>, qs: seq<Provider>, ref: string)
    requires (forall id :: IsID(ps, id) ==> IsID(qs, id)) && Refers(ps, ref)
    ensures Refers(qs, ref)
  {
  }

  /** Storing a provider keeps the registry's integrity if and only if the words that its ID is made from
      have no white space at their edges. */
  lemma UpsertKeeps(c: Config, p: Provider)
    requires Integrity(c) && Upsert(c, p).Ok?
    ensures Integrity(Upsert(c, p).value) <==> Tidy(p.id, p.name)
  {
    hide Integrity, Upsert, Tidy, NormalizeProviderID, Trimmed;
    TidyIsTrimmed(p.id, p.name);
    UpsertKeepsIfTrimmed(c, p);
  }

  lemma UpsertKeepsIfTrimmed(c: Config, p: Provider)
    requires Integrity(c) && Upsert(c, p).Ok?
    ensures Integrity(Upsert(c, p).value) <==> Trimmed(Cleaned(p).id)
  {
    var q := Cleaned(p);
    var ps, qs := c.providers, Put(c.providers, q);
    IDsAreSlugs(p.id, p.name);
    hide Trim, Lower, Trimmed, NormalizeProviderID, Slug, Refers, IsID;
    if Trimmed(q.id) {
      FoldedGood(q.id);
      PutKeeps(ps, q);
      RefersMore(ps, qs, c.defaultRef);
      forall k | 0 <= k < |c.agents|
        ensures Refers(qs, c.agents[k].providerRef)
      {
        RefersMore(ps, qs, c.agents[k].providerRef);
      }
    } else {
      FoldedLonger(q.id);
      var i := FirstWithID(ps, q.id);
      assert qs[i] == q;
      assert !GoodID(qs[i].id);
    }
  }

  /** Handling an upsert keeps it on the same condition: whatever becomes the default is a provider. */
  lemma HandleUpsertKeeps(c: Config, p: Provider)
    requires Integrity(c) && HandleUpsert(c, p).Ok?
    ensures Integrity(HandleUpsert(c, p).value) <==> Tidy(p.id, p.name)
  {
    TidyIsTrimmed(p.id, p.name);
    var m := Merged(c, p);
    var ref := FirstNonEmpty(p.id, p.name);
    hide Trim, Lower, Trimmed, NormalizeProviderID, Integrity, FirstMatch, Cleaned, Upsert, Merged, FirstNonEmpty,
         FoundID, FoundEnabled, SetDefault, Tidy;
    var d := Upsert(c, m).value;
    var updated := FoundID(d.providers, ref);
    UpsertKeepsIfTrimmed(c, m);
    MergedID(c, p);
    assert HandleUpsert(c, p).value == d || HandleUpsert(c, p).value == SetDefault(d, updated);
    hide HandleUpsert;
    if Integrity(d) {
      SetDefaultKeeps(d, updated);
    } else {
      DefaultDoesNotRepair(d, updated, m, c);
    }
  }

  lemma MergedID(c: Config, p: Provider)
    ensures Cleaned(Merged(c, p)).id == NormalizeProviderID(p.id, p.name)
  {
    hide Trim, NormalizeProviderID, FirstMatch, FirstNonEmpty;
  }

  lemma DefaultDoesNotRepair(d: Config, ref: string, p: Provider, c: Config)
    requires Upsert(c, p) == Ok(d) && !Trimmed(Cleaned(p).id)
    ensures !Integrity(SetDefault(d, ref)) && !Integrity(d)
  {
    hide Trimmed, Cleaned, FirstWithID, FirstMatch, Integrity, Acceptable, Trim, Lower;
    var q := Cleaned(p);
    var i := FirstWithID(c.providers, q.id);
    assert d.providers == Put(c.providers, q);
    hide Upsert;
    assert d.providers[i] == q;
    hide Put;
    assert SetDefault(d, ref).providers == d.providers;
    hide SetDefault;
    FoldedLonger(q.id);
    assert !GoodID(q.id);
    BadIDBreaks(d, i);
    BadIDBreaks(SetDefault(d, ref), i);
  }

  lemma BadIDBreaks(c: Config, i: nat)
    requires i < |c.providers| && !GoodID(c.providers[i].id)
    ensures !Integrity(c)
  {
    hide GoodID, Refers;
  }

  lemma WithoutIsID(ps: seq<Provider>, i: nat, id: string)
    requires UniqueIDs(ps) && i < |ps|
    ensures IsID(Without(ps, i), id) <==> IsID(ps, id) && id != ps[i].id
  {
    hide GoodID;
    var qs := Without(ps, i);
    if IsID(qs, id) {
      var j :| 0 <= j < |qs| && qs[j].id == id;
      var k := if j < i then j else j + 1;
      assert qs[j] == ps[k];
    }
    if IsID(ps, id) && id != ps[i].id {
      var j :| 0 <= j < |ps| && ps[j].id == id;
      assert ps[j] == qs[if j < i then j else j - 1];
    }
  }

  lemma WithoutKeeps(ps: seq<Provider>, i: nat)
    requires UniqueIDs(ps) && i < |ps|
    ensures UniqueIDs(Without(ps, i))
  {
    hide GoodID;
    var qs := Without(ps, i);
    assert forall j :: 0 <= j < |qs| ==> qs[j] == ps[if j < i then j else j + 1];
  }

  lemma FoldedRef(ps: seq<Provider>, ref: string)
    requires UniqueIDs(ps) && Refers(ps, ref)
    ensures Folded(ref) == ref
  {
    if ref == "" {
      assert Trim("") == "";
    } else {
      var i :| 0 <= i < |ps| && ps[i].id == ref;
      assert GoodID(ps[i].id);
    }
  }

  lemma IDIsThere(ps: seq<Provider>, i: nat)
    requires i < |ps|
    ensures IsID(ps, ps[i].id)
  {
  }

  lemma ClearedRefer(ps: seq<Provider>, i: nat, agents: seq<Agent>, k: nat)
    requires UniqueIDs(ps) && i < |ps| && k < |agents| && Refers(ps, agents[k].providerRef)
    ensures Cleared(agents, ps[i].id)[k] ==
            if agents[k].providerRef == ps[i].id then Agent(agents[k].name, "") else agents[k]
    ensures Refers(Without(ps, i), Cleared(agents, ps[i].id)[k].providerRef)
  {
    hide Folded, Without, IsID, GoodID;
    assert GoodID(ps[i].id);
    EmptyIsNotGood();
    WithoutIsID(ps, i, agents[k].providerRef);
    assert IsID(ps, ps[i].id) by {
      IDIsThere(ps, i);
    }
    FoldedRef(ps, ps[i].id);
    FoldedRef(ps, agents[k].providerRef);
    assert Cleared(agents, ps[i].id)[k] == Unlinked(agents[k], ps[i].id);
  }

  /** The providers with another ID, in their order. */
  function Others(ps: seq<Provider>, id: string): seq<Provider> {
    if ps == [] then []
    else if ps[0].id == id then Others(ps[1..], id)
    else [ps[0]] + Others(ps[1..], id)
  }

  /** No trace of an ID is left; every other provider is still there as it was, and so is every agent, with its
      reference unless it was that one. */
  ghost predicate Gone(c: Config, d: Config, gone: string) {
    && (forall id :: IsID(d.providers, id) <==> IsID(c.providers, id) && id != gone)
    && d.providers == Others(c.providers, gone)
    && |d.agents| == |c.agents|
    && (forall k :: 0 <= k < |d.agents| ==>
          d.agents[k] == if c.agents[k].providerRef == gone then Agent(c.agents[k].name, "") else c.agents[k])
    && gone != "" && d.defaultRef != gone
  }

  lemma {:induction false} OthersAll(ps: seq<Provider>, id: string)
    requires forall j :: 0 <= j < |ps| ==> ps[j].id != id
    ensures Others(ps, id) == ps
  {
    if ps != [] {
      OthersAll(ps[1..], id);
    }
  }

  lemma {:induction false} WithoutIsOthers(ps: seq<Provider>, i: nat)
    requires i < |ps| && forall j :: 0 <= j < |ps| && j != i ==> ps[j].id != ps[i].id
    ensures Without(ps, i) == Others(ps, ps[i].id)
  {
    if i == 0 {
      OthersAll(ps[1..], ps[0].id);
    } else {
      WithoutIsOthers(ps[1..], i - 1);
      assert Without(ps, i) == [ps[0]] + Without(ps[1..], i - 1);
    }
  }

  /** What a deletion does: the provider that the reference finds is gone and no agent refers to it. */
  lemma DeleteRemoves(c: Config, i: nat)
    requires Integrity(c) && i < |c.providers|
    ensures var gone := c.providers[i].id;
            var d := c.(providers := Without(c.providers, i), agents := Cleared(c.agents, gone));
            && (c.defaultRef != gone ==> Integrity(d) && Gone(c, d, gone))
            && (c.defaultRef == gone ==> !Integrity(d))
            && Integrity(d.(defaultRef := "")) && Gone(c, d.(defaultRef := ""), gone)
  {
    hide GoodID, Without, Cleared, IsID, Folded;
    var gone := c.providers[i].id;
    var d := c.(providers := Without(c.providers, i), agents := Cleared(c.agents, gone));
    assert GoodID(gone);
    EmptyIsNotGood();
    WithoutKeeps(c.providers, i);
    WithoutIsOthers(c.providers, i);
    hide UniqueIDs, Others;
    forall id
      ensures IsID(d.providers, id) <==> IsID(c.providers, id) && id != gone
    {
      WithoutIsID(c.providers, i, id);
    }
    forall k | 0 <= k < |c.agents|
      ensures d.agents[k] == if c.agents[k].providerRef == gone then Agent(c.agents[k].name, "") else c.agents[k]
      ensures Refers(d.providers, d.agents[k].providerRef)
    {
      ClearedRefer(c.providers, i, c.agents, k);
    }
  }

  lemma DeleteIs(c: Config, ref: string)
    requires FirstMatch(c.providers, ref) < |c.providers|
    ensures var i := FirstMatch(c.providers, ref);
            Delete(c, ref) == Some(c.(providers := Without(c.providers, i), agents := Cleared(c.agents, c.providers[i].id)))
  {
  }

  /** Deleting a provider keeps the integrity of the registry if and only if it was not the default. */
  lemma DeleteKeeps(c: Config, ref: string)
    requires Integrity(c) && Delete(c, ref).Some?
    ensures var i := FirstMatch(c.providers, ref);
            i < |c.providers| && (Integrity(Delete(c, ref).value) <==> c.defaultRef != c.providers[i].id)
  {
    var i := FirstMatch(c.providers, ref);
    assert i < |c.providers|;
    hide Integrity, Delete, FirstMatch, Gone, Without, Cleared;
    DeleteIs(c, ref);
    DeleteRemoves(c, i);
  }

  lemma EmptyIsNotGood()
    ensures !GoodID("")
  {
  }

  ghost predicate CleanlyDeleted(c: Config, ref: string, r: Result<Config, RegistryError>) {
    var i := FirstMatch(c.providers, ref);
    && r.Ok? && i < |c.providers| && Integrity(r.value) && Gone(c, r.value, c.providers[i].id)
    && r.value.defaultRef == if c.defaultRef == c.providers[i].id then "" else c.defaultRef
  }

  /** The handler refuses where that would go wrong, or clears the default as well: what is left is whole,
      with every other provider, and without a trace of the one deleted. */
  lemma HandleDeleteKeeps(c: Config, id: string)
    requires Integrity(c) && HandleDelete(c, id).Ok?
    ensures CleanlyDeleted(c, Trim(id), HandleDelete(c, id))
  {
    hide Integrity, Delete, FirstMatch, Gone, Without, Cleared, Trim, Folded;
    var ref := Trim(id);
    var i := FirstMatch(c.providers, ref);
    DeleteIs(c, ref);
    DeleteRemoves(c, i);
    SameAsDefault(c, i);
  }

  lemma SameAsDefault(c: Config, i: nat)
    requires Integrity(c) && i < |c.providers|
    ensures Folded(c.defaultRef) == Folded(c.providers[i].id) <==> c.defaultRef == c.providers[i].id
  {
    FoldedRef(c.providers, c.defaultRef);
    assert IsID(c.providers, c.providers[i].id);
    FoldedRef(c.providers, c.providers[i].id);
  }

  /** An upsert that is accepted although the words of the ID have white space at their edges. */
  predicate Spoils(c: Config, op: Operation) {
    op.UpsertOne? && HandleUpsert(c, op.provider).Ok? && !Tidy(op.provider.id, op.provider.name)
  }

  /** An operation keeps the integrity of the registry if and only if it does not store such an ID. */
  lemma ApplyKeeps(c: Config, op: Operation)
    requires Integrity(c)
    ensures Integrity(Apply(c, op)) <==> !Spoils(c, op)
  {
    hide Integrity, HandleUpsert, HandleDelete, SetDefault, Tidy;
    match op
    case UpsertOne(p) =>
      if HandleUpsert(c, p).Ok? {
        HandleUpsertKeeps(c, p);
      }
    case DeleteOne(id) =>
      if HandleDelete(c, id).Ok? {
        HandleDeleteKeeps(c, id);
      }
    case MakeDefault(ref) => SetDefaultKeeps(c, ref);
  }

  /** Over any run of the handlers the registry is whole all the time, if and only if none of them stores
      an ID with white space at its ends. */
  lemma {:induction false} RunsKeep(c: Config, ops: seq<Operation>)
    requires Integrity(c)
    ensures (forall k :: 0 <= k <= |ops| ==> Integrity(Run(c, ops[..k]))) <==>
            (forall k :: 0 <= k < |ops| ==> !Spoils(Run(c, ops[..k]), ops[k]))
  {
    hide Integrity, Spoils, Apply;
    forall k | 0 <= k < |ops| && Integrity(Run(c, ops[..k]))
      ensures Integrity(Run(c, ops[..k + 1])) <==> !Spoils(Run(c, ops[..k]), ops[k])
    {
      ApplyKeeps(Run(c, ops[..k]), ops[k]);
      assert ops[..k + 1][..k] == ops[..k];
    }
    if forall k :: 0 <= k <= |ops| ==> Integrity(Run(c, ops[..k])) {
      forall k | 0 <= k < |ops|
        ensures !Spoils(Run(c, ops[..k]), ops[k])
      {
        assert Integrity(Run(c, ops[..k + 1]));
      }
    }
    if forall k :: 0 <= k < |ops| ==> !Spoils(Run(c, ops[..k]), ops[k]) {
      var k := 0;
      while k < |ops|
        invariant k <= |ops| && forall j :: 0 <= j <= k ==> Integrity(Run(c, ops[..j]))
      {
        k := k + 1;
      }
    }
  }

  // ---------------------------------------------------------------- what a request asks for

  /** Up to case and the white space around it, the text is the ID or the name of the provider. */
  predicate GoesBy(p: Provider, text: string) {
    Lower(Trim(p.id)) == Lower(Trim(text)) || Lower(Trim(p.name)) == Lower(Trim(text))
  }

  /** The first provider that goes by a text. */
  predicate FirstToGoBy(ps: seq<Provider>, text: string, i: nat) {
    i < |ps| && GoesBy(ps[i], text) && forall j :: 0 <= j < i ==> !GoesBy(ps[j], text)
  }

  /** The ID that a request gives, or else its name. */
  function Named(p: Provider): string {
    if Blank(p.id) then p.name else p.id
  }

  /** What is to be stored for a request: everything that it gives; enabled if it does not say; and the key of
      the first provider that it names, if it brings none. */
  ghost predicate AskedFor(ps: seq<Provider>, p: Provider, q: Provider) {
    && q.id == NormalizeProviderID(p.id, p.name) && q.name == Trim(p.name) && q.provider == Trim(p.provider)
    && (p.enabled.Some? ==> q.enabled == p.enabled) && (p.enabled.None? ==> q.enabled == Some(true))
    && if Blank(p.apiKey) then KeyOf(ps, Named(p), q.apiKey) else q.apiKey == Trim(p.apiKey)
  }

  /** The key of the first provider that goes by a text; none if there is no such provider. */
  ghost predicate KeyOf(ps: seq<Provider>, text: string, key: string) {
    || ((forall i :: 0 <= i < |ps| ==> !GoesBy(ps[i], text)) && key == "")
    || exists i: nat :: FirstToGoBy(ps, text, i) && key == Trim(ps[i].apiKey)
  }

  /** Stored in the place of the first provider with the same ID, or behind all others. */
  ghost predicate StoredIn(ps: seq<Provider>, q: Provider, qs: seq<Provider>) {
    if forall i :: 0 <= i < |ps| ==> Lower(Trim(ps[i].id)) != Lower(q.id) then qs == ps + [q]
    else exists i :: 0 <= i < |ps| && Lower(Trim(ps[i].id)) == Lower(q.id) && qs == ps[i := q] &&
                     forall j :: 0 <= j < i ==> Lower(Trim(ps[j].id)) != Lower(q.id)
  }

  lemma NamedIs(p: Provider)
    ensures FirstNonEmpty(p.id, p.name) == Trim(Named(p))
  {
    BlankIsEmpty(p.id);
  }

  lemma GoesByIs(p: Provider, text: string)
    ensures GoesBy(p, text) <==> Matches(p, Trim(text))
  {
    FoldTrimmed(text);
    hide Trim, Lower;
  }

  lemma FirstToGoByIs(ps: seq<Provider>, text: string)
    ensures var i := FirstMatch(ps, Trim(text));
            && (i < |ps| ==> FirstToGoBy(ps, text, i))
            && (i == |ps| ==> forall j :: 0 <= j < |ps| ==> !GoesBy(ps[j], text))
            && forall j: nat :: FirstToGoBy(ps, text, j) ==> j == i < |ps|
  {
    FirstMatches(ps, Trim(text));
    hide Trim, FirstMatch, Matches, GoesBy;
    forall j | 0 <= j < |ps|
      ensures GoesBy(ps[j], text) <==> Matches(ps[j], Trim(text))
    {
      GoesByIs(ps[j], text);
    }
  }

  lemma MergedIsAskedFor(c: Config, p: Provider)
    ensures AskedFor(c.providers, p, Cleaned(Merged(c, p)))
  {
    BlankIsEmpty(p.apiKey);
    NamedIs(p);
    FirstToGoByIs(c.providers, Named(p));
    hide Trim, Blank, NormalizeProviderID, FirstMatch, Named, GoesBy, FirstToGoBy, FirstNonEmpty;
    MergedTexts(c, p);
    BlankTrimmed();
  }

  lemma BlankTrimmed()
    ensures Trim("") == ""
  {
  }

  lemma PutStores(ps: seq<Provider>, q: Provider)
    ensures StoredIn(ps, q, Put(ps, q))
  {
    FirstHasID(ps, q.id);
    hide Trim, Lower, FirstWithID;
  }

  /** A request is accepted exactly if it gives a name, a provider and something to make an ID of; what is
      asked for is stored then, and nothing else changes but the default. */
  lemma StoredAsAsked(c: Config, p: Provider) returns (q: Provider)
    ensures HandleUpsert(c, p).Ok? <==>
            !Blank(p.name) && !Blank(p.provider) && NormalizeProviderID(p.id, p.name) != ""
    ensures AskedFor(c.providers, p, q)
    ensures HandleUpsert(c, p).Ok? ==>
              StoredIn(c.providers, q, HandleUpsert(c, p).value.providers) && HandleUpsert(c, p).value.agents == c.agents
  {
    var m := Merged(c, p);
    q := Cleaned(m);
    BlankIsEmpty(p.name);
    BlankIsEmpty(p.provider);
    MergedIsAskedFor(c, p);
    PutStores(c.providers, q);
    hide Trim, Lower, Blank, NormalizeProviderID, FirstMatch, FirstNonEmpty, Merged, AskedFor, StoredIn, Put;
    MergedTexts(c, p);
    if Acceptable(m) {
      UpsertPuts(c, m);
      HandleUpsertStores(c, p);
      HandleUpsertAgents(c, p);
    }
  }

  lemma MergedTexts(c: Config, p: Provider)
    ensures var q := Cleaned(Merged(c, p));
            && q.id == NormalizeProviderID(p.id, p.name) && q.name == Trim(p.name) && q.provider == Trim(p.provider)
            && q.enabled == (if p.enabled.None? then Some(true) else p.enabled)
  {
    hide Trim, NormalizeProviderID, FirstMatch, FirstNonEmpty;
  }

  lemma HandleUpsertAgents(c: Config, p: Provider)
    requires Upsert(c, Merged(c, p)).Ok?
    ensures HandleUpsert(c, p).Ok? && HandleUpsert(c, p).value.agents == c.agents
  {
    hide Merged, Trim, Lower, FirstMatch, FirstNonEmpty, Cleaned, Put;
  }

  /** The default after a request that names a text, under which the provider at `j` is found then. */
  ghost predicate DefaultFrom(c: Config, text: string, d: Config, j: nat)
    requires j < |d.providers|
  {
    var chosen := c.defaultRef == "" || exists i: nat :: FirstToGoBy(c.providers, text, i) && c.defaultRef == c.providers[i].id;
    && (c.defaultRef != d.defaultRef ==> chosen || c.defaultRef == d.providers[j].id)
    && (NoNameBefore(d.providers, j) ==>
          d.defaultRef == if chosen && IsEnabled(d.providers[j]) then d.providers[j].id else c.defaultRef)
  }

  /** A request makes a provider the default in two cases only: there is none yet, or the default is the
      provider that the request names. It does so if the one that it names afterwards is enabled, and found by
      its ID. */
  lemma DefaultFollows(c: Config, p: Provider, j: nat)
    requires Integrity(c) && HandleUpsert(c, p).Ok? && Tidy(p.id, p.name)
    requires j < |HandleUpsert(c, p).value.providers| && FirstToGoBy(HandleUpsert(c, p).value.providers, Named(p), j)
    ensures DefaultFrom(c, Named(p), HandleUpsert(c, p).value, j)
  {
    hide Trim, Lower, NormalizeProviderID, Integrity, FirstMatch, Merged, SetDefault, Tidy, FirstToGoBy, Cleaned, Put,
         FirstNonEmpty, HandleUpsert, Acceptable, Chooses, DefaultFrom;
    var m := Merged(c, p);
    NamedIs(p);
    MergedID(c, p);
    HandleUpsertIs(c, p);
    HandleUpsertStores(c, p);
    UpsertKeepsIfTrimmed(c, m);
    TidyIsTrimmed(p.id, p.name);
    CleanedIDIs(p);
    var d := Upsert(c, m).value;
    assert d.defaultRef == c.defaultRef;
    hide Upsert;
    ChosenFrom(c, d, Named(p), j);
  }

  lemma ChosenFrom(c: Config, d: Config, text: string, j: nat)
    requires Integrity(c) && Integrity(d) && d.defaultRef == c.defaultRef
    requires j < |d.providers| && FirstToGoBy(d.providers, text, j)
    ensures var ref := Trim(text);
            var r := if Chooses(c, d, ref) then SetDefault(d, FoundID(d.providers, ref)) else d;
            r.providers == d.providers && DefaultFrom(c, text, r, j)
  {
    var ref := Trim(text);
    FirstToGoByIs(c.providers, text);
    FirstToGoByIs(d.providers, text);
    hide Trim, Integrity, FirstMatch, FirstToGoBy, NoNameBefore, FoundID, FoundEnabled;
    FoundAt(d.providers, ref, j);
    var i := FirstMatch(c.providers, ref);
    if i < |c.providers| {
      FoundAt(c.providers, ref, i);
      IDIsGood(c, i);
    } else {
      FoundNowhere(c.providers, ref);
    }
    IDIsGood(d, j);
    if NoNameBefore(d.providers, j) {
      SetDefaultByID(d, j);
    }
  }

  lemma IDIsGood(c: Config, i: nat)
    requires Integrity(c) && i < |c.providers|
    ensures UniqueIDs(c.providers) && c.providers[i].id != ""
  {
    EmptyIsNotGood();
    assert GoodID(c.providers[i].id);
  }

  /** Whether the handler chooses a default, where all IDs are good. */
  predicate Chooses(c: Config, d: Config, ref: string) {
    var existing, updated := FoundID(c.providers, ref), FoundID(d.providers, ref);
    || (c.defaultRef == "" && FoundEnabled(d.providers, ref))
    || c.defaultRef == (if existing != "" then existing else updated)
    || c.defaultRef == updated
  }

  lemma HandleUpsertIs(c: Config, p: Provider)
    requires HandleUpsert(c, p).Ok? && Integrity(c)
    ensures Upsert(c, Merged(c, p)).Ok?
    ensures var d, ref := Upsert(c, Merged(c, p)).value, FirstNonEmpty(p.id, p.name);
            Integrity(d) ==> HandleUpsert(c, p).value ==
                             if Chooses(c, d, ref) then SetDefault(d, FoundID(d.providers, ref)) else d
  {
    hide Trim, Lower, FirstMatch, Cleaned, Put, Merged, SetDefault, FoundEnabled, Acceptable, FoundID, Integrity;
    var d, ref := Upsert(c, Merged(c, p)).value, FirstNonEmpty(p.id, p.name);
    if Integrity(d) {
      var existing, updated := FoundID(c.providers, ref), FoundID(d.providers, ref);
      DefaultFolds(c);
      FoundIDFolds(c, ref);
      FoundIDFolds(d, ref);
    }
  }

  lemma RefFolds(c: Config, id: string)
    requires Integrity(c) && Refers(c.providers, id)
    ensures Folded(id) == id && Trim(id) == id && Lower(id) == id
  {
    FoldedRef(c.providers, id);
    TrimLower(id);
    if id != "" {
      TrimGood(id);
    }
  }

  lemma DefaultFolds(c: Config)
    requires Integrity(c)
    ensures var id := c.defaultRef; Lower(Trim(id)) == id && Trim(id) == id
  {
    RefFolds(c, c.defaultRef);
  }

  lemma FoundIDFolds(c: Config, ref: string)
    requires Integrity(c)
    ensures var id := FoundID(c.providers, ref); Trim(id) == id && Lower(id) == id
  {
    hide Integrity, FirstMatch, Trim, Lower;
    FoundIDIs(c.providers, ref);
    RefFolds(c, FoundID(c.providers, ref));
  }

  lemma FoundIDIs(ps: seq<Provider>, ref: string)
    ensures Refers(ps, FoundID(ps, ref))
  {
    hide FirstMatch;
  }

  lemma FoundAt(ps: seq<Provider>, ref: string, i: nat)
    requires i < |ps| && FirstMatch(ps, ref) == i
    ensures FoundID(ps, ref) == ps[i].id && (FoundEnabled(ps, ref) <==> IsEnabled(ps[i]))
  {
    hide FirstMatch;
  }

  lemma FoundNowhere(ps: seq<Provider>, ref: string)
    requires FirstMatch(ps, ref) == |ps|
    ensures FoundID(ps, ref) == ""
  {
    hide FirstMatch;
  }

  /** Making a provider the default by its ID, where no provider before goes by it. */
  lemma SetDefaultByID(c: Config, i: nat)
    requires UniqueIDs(c.providers) && i < |c.providers| && NoNameBefore(c.providers, i)
    ensures var id := c.providers[i].id;
            SetDefault(c, id) == if IsEnabled(c.providers[i]) then c.(defaultRef := id) else c
  {
    FoundByID(c, i);
    hide FirstMatch, Folded;
  }

  /** Why a deletion is refused. */
  ghost predicate Refused(c: Config, id: string, e: RegistryError) {
    match e
    case IDRequired => Blank(id)
    case NotFound => !Blank(id) && forall i :: 0 <= i < |c.providers| ==> !GoesBy(c.providers[i], id)
    case SwitchDefaultFirst =>
      !Blank(id) && |c.providers| > 1 && exists i: nat :: FirstToGoBy(c.providers, id, i) && c.providers[i].id == c.defaultRef
    case Invalid => false
  }

  /** A deletion is refused exactly if no ID is given, no provider goes by it, or it would take the default away
      while there are others. */
  lemma DeletionRefused(c: Config, id: string, e: RegistryError)
    requires Integrity(c)
    ensures HandleDelete(c, id) == Err(e) <==> Refused(c, id, e)
  {
    var ref := Trim(id);
    var i := FirstMatch(c.providers, ref);
    BlankIsEmpty(id);
    FirstToGoByIs(c.providers, id);
    hide Blank, Trim, Folded, FirstMatch, FirstToGoBy, GoesBy, Integrity, Delete, Without, Cleared;
    if i < |c.providers| {
      SameAsDefault(c, i);
      DeleteIs(c, ref);
      assert FirstToGoBy(c.providers, id, i) && GoesBy(c.providers[i], id) by {
        FirstGoesBy(c.providers, id, i);
      }
    }
  }

  lemma FirstGoesBy(ps: seq<Provider>, text: string, i: nat)
    requires FirstToGoBy(ps, text, i)
    ensures GoesBy(ps[i], text)
  {
  }

  // ---------------------------------------------------------------- looking up by ID

  /** A provider is found by its ID, if and only if none before it goes by that ID as its name. */
  lemma FoundByID(c: Config, i: nat)
    requires UniqueIDs(c.providers) && i < |c.providers|
    ensures FirstMatch(c.providers, c.providers[i].id) == i <==>
            forall j :: 0 <= j < i ==> Folded(c.providers[j].name) != c.providers[i].id
  {
    hide FirstMatch, Folded, Trim, Lower;
    var id := c.providers[i].id;
    assert GoodID(id);
    TrimLower(id);
    FirstMatches(c.providers, id);
    assert forall j :: 0 <= j < |c.providers| ==> GoodID(c.providers[j].id);
    assert Matches(c.providers[i], id);
  }

  lemma TrimLower(id: string)
    requires Folded(id) == id
    ensures Trim(Lower(id)) == id && Lower(id) == id
  {
    if !Trimmed(id) {
      FoldedLonger(id);
      assert false;
    }
    assert Trim(id) == id;
  }

  /** No provider before goes by the ID of this one as its name. */
  predicate NoNameBefore(ps: seq<Provider>, i: nat)
    requires i < |ps|
  {
    forall j :: 0 <= j < i ==> Folded(ps[j].name) != ps[i].id
  }

  /** A deletion by ID that the handler carries out removes the provider with that ID, if and only if no
      provider before it goes by that ID as its name; otherwise it removes one that does. */
  lemma DeletesByID(c: Config, i: nat)
    requires Integrity(c) && i < |c.providers| && HandleDelete(c, c.providers[i].id).Ok?
    ensures HandleDelete(c, c.providers[i].id).value.providers == Without(c.providers, i) <==> NoNameBefore(c.providers, i)
  {
    var ps, id := c.providers, c.providers[i].id;
    var k := FirstMatch(ps, id);
    assert GoodID(id);
    TrimLower(id);
    TrimGood(id);
    FoundByID(c, i);
    FirstMatches(ps, id);
    hide Folded, Trim, Lower, FirstMatch, Without;
    DeleteIs(c, id);
    assert HandleDelete(c, id).value.providers == Without(ps, k);
    if k != i {
      assert Matches(ps[i], id);
      WithoutDiffers(ps, k, i);
    }
  }

  lemma TrimGood(id: string)
    requires GoodID(id)
    ensures Trim(id) == id
  {
    if !Trimmed(id) {
      FoldedLonger(id);
      assert false;
    }
  }

  lemma WithoutDiffers(ps: seq<Provider>, k: nat, i: nat)
    requires UniqueIDs(ps) && k < i < |ps|
    ensures Without(ps, k) != Without(ps, i)
  {
    hide GoodID;
    assert Without(ps, k)[k] == ps[k + 1] && Without(ps, i)[k] == ps[k];
  }

  /** A provider stored again under its ID without an API key keeps its own key, on the same condition;
      otherwise it gets the key of the first provider that goes by that ID as its name. */
  lemma KeepsKeyByID(c: Config, p: Provider, i: nat)
    requires Integrity(c) && i < |c.providers| && p.id == c.providers[i].id
    requires Acceptable(p) && NormalizeProviderID(p.id, p.name) == p.id && Trim(p.apiKey) == ""
    ensures var k, r := FirstMatch(c.providers, p.id), HandleUpsert(c, p);
            && k <= i && (k == i <==> NoNameBefore(c.providers, i))
            && r.Ok? && |r.value.providers| == |c.providers|
            && r.value.providers[i].id == p.id && r.value.providers[i].apiKey == Trim(c.providers[k].apiKey)
  {
    var ps, id := c.providers, p.id;
    var k := FirstMatch(ps, id);
    assert GoodID(id);
    TrimLower(id);
    TrimGood(id);
    FoundByID(c, i);
    FirstMatches(ps, id);
    FirstHasID(ps, id);
    assert Matches(ps[i], id);
    FirstNonEmptyIs(p);
    MergedWithKey(c, p);
    MergedID(c, p);
    CleanedIDIs(p);
    SameID(ps, i);
    hide Folded, Trim, Lower, FirstMatch, FirstWithID, NormalizeProviderID, Matches, FirstNonEmpty, GoodID;
    var m := Merged(c, p);
    UpsertPuts(c, m);
    HandleUpsertStores(c, p);
    hide HandleUpsert, Upsert, Merged;
    assert Put(ps, Cleaned(m)) == ps[i := Cleaned(m)];
  }

  lemma FirstNonEmptyIs(p: Provider)
    requires Trim(p.id) == p.id != ""
    ensures FirstNonEmpty(p.id, p.name) == p.id
  {
  }

  lemma MergedWithKey(c: Config, p: Provider)
    requires Trim(p.apiKey) == "" && FirstMatch(c.providers, FirstNonEmpty(p.id, p.name)) < |c.providers|
    ensures Merged(c, p).apiKey == c.providers[FirstMatch(c.providers, FirstNonEmpty(p.id, p.name))].apiKey
    ensures Acceptable(p) ==> Acceptable(Merged(c, p))
  {
    hide Trim, NormalizeProviderID, FirstMatch, FirstNonEmpty;
  }

  lemma SameID(ps: seq<Provider>, i: nat)
    requires UniqueIDs(ps) && i < |ps|
    ensures FirstWithID(ps, ps[i].id) == i
  {
    var id := ps[i].id;
    FirstHasID(ps, id);
    assert GoodID(id);
    TrimLower(id);
    hide Folded, Lower, Trim, FirstWithID;
    assert forall j :: 0 <= j < |ps| ==> GoodID(ps[j].id);
  }

  /** Choosing a default does not change the list. */
  lemma HandleUpsertStores(c: Config, p: Provider)
    requires Upsert(c, Merged(c, p)).Ok?
    ensures HandleUpsert(c, p).Ok? && HandleUpsert(c, p).value.providers == Upsert(c, Merged(c, p)).value.providers
  {
    hide Upsert, Merged, Trim, Lower, FirstMatch, FirstNonEmpty;
  }

  predicate StoredTwice(c: Config, p: Provider) {
    var d := Upsert(c, p);
    d.Ok? && Upsert(d.value, p) == Ok(c.(providers := c.providers + [Cleaned(p), Cleaned(p)]))
  }

  /** A provider whose ID gets white space at its ends is not recognised again: stored twice, it is there
      twice. */
  lemma UntrimmedIsStoredTwice(c: Config, p: Provider)
    requires Acceptable(p) && !Tidy(p.id, p.name)
    requires forall i :: 0 <= i < |c.providers| ==> Folded(c.providers[i].id) != Cleaned(p).id
    ensures StoredTwice(c, p)
  {
    hide Trim, Lower, Trimmed, Cleaned, Folded, Acceptable, Put, Upsert, Tidy, NormalizeProviderID;
    TidyIsTrimmed(p.id, p.name);
    CleanedIDIs(p);
    var q := Cleaned(p);
    CleanedID(p);
    FoldedLonger(q.id);
    assert Folded(q.id) != q.id;
    NotStored(c.providers, q);
    NotStored(c.providers + [q], q);
    var d := c.(providers := c.providers + [q]);
    UpsertPuts(c, p);
    UpsertPuts(d, p);
    assert c.providers + [q] + [q] == c.providers + [q, q];
  }

  lemma UpsertPuts(c: Config, p: Provider)
    requires Acceptable(p)
    ensures Upsert(c, p) == Ok(c.(providers := Put(c.providers, Cleaned(p))))
  {
    hide Cleaned, Put, Acceptable;
  }

  lemma CleanedIDIs(p: Provider)
    ensures Cleaned(p).id == NormalizeProviderID(p.id, p.name)
  {
    hide Trim, NormalizeProviderID;
  }

  lemma CleanedID(p: Provider)
    ensures Lower(Cleaned(p).id) == Cleaned(p).id
  {
    IDsAreSlugs(p.id, p.name);
    hide Trim, Lower, NormalizeProviderID, Slug;
  }

  lemma NotStored(ps: seq<Provider>, q: Provider)
    requires Lower(q.id) == q.id && forall i :: 0 <= i < |ps| ==> Folded(ps[i].id) != q.id
    ensures Put(ps, q) == ps + [q]
  {
    FirstHasID(ps, q.id);
    hide Folded, Lower, FirstWithID;
  }

  // ---------------------------------------------------------------- the first provider

  lemma SingleMatch(q: Provider, ref: string)
    ensures FirstMatch([q], ref) == if Matches(q, ref) then 0 else 1
  {
    hide Matches;
    assert [q][1..] == [];
  }

  lemma NamesAreNotBlank(q: Provider)
    requires GoodID(q.id) && q.name != "" && Trim(q.name) == q.name
    ensures !Matches(q, "") && Matches(q, q.id)
  {
    TrimLower(q.id);
    assert Trim(Lower("")) == "";
    hide Trim, Lower;
    assert |Lower(q.name)| == |q.name|;
  }

  lemma CleanedIsGood(p: Provider)
    requires Acceptable(p) && Trimmed(Cleaned(p).id)
    ensures GoodID(Cleaned(p).id) && Trim(Cleaned(p).name) == Cleaned(p).name
  {
    CleanedID(p);
    TrimTwice(p.name);
    hide Trim, Lower, NormalizeProviderID;
    FoldedGood(Cleaned(p).id);
  }

  lemma TrimTwice(s: string)
    ensures Trim(Trim(s)) == Trim(s)
  {
  }

  lemma PutFirst(q: Provider)
    ensures Put([], q) == [q]
  {
    hide Folded, Lower;
  }

  /** The request finds what it stores: it gives no ID, or one that is, up to case and the white space around
      it, the ID or the name that is stored. */
  predicate FindsItself(p: Provider) {
    Trim(p.id) == "" || Folded(p.id) == NormalizeProviderID(p.id, p.name) || Folded(p.id) == Folded(p.name)
  }

  lemma FoldTrimmed(s: string)
    ensures Trim(Lower(Trim(s))) == Folded(s) && Folded(Trim(s)) == Folded(s)
  {
    hide Trim;
    var t := Trim(s);
    assert Trim(t) == t;
    LowerStaysTrimmed(t);
  }

  lemma LowerStaysTrimmed(t: string)
    requires Trimmed(t)
    ensures Trimmed(Lower(t))
  {
    assert t != "" ==> Lower(t)[0] == LowerChar(t[0]) && Lower(t)[|t| - 1] == LowerChar(t[|t| - 1]);
  }

  lemma FindsItselfIs(p: Provider, q: Provider)
    requires q.id == NormalizeProviderID(p.id, p.name) && q.name == Trim(p.name) && GoodID(q.id)
    ensures Matches(q, FirstNonEmpty(p.id, p.name)) <==> FindsItself(p)
  {
    FoldTrimmed(p.id);
    FoldTrimmed(p.name);
    hide Trim, Lower, NormalizeProviderID;
  }

  /** With no provider yet and no default, the first one stored becomes the default if and only if it is
      enabled and the request finds it: an ID that normalising changes may not. */
  lemma FirstBecomesDefault(c: Config, p: Provider)
    requires c.providers == [] && c.defaultRef == "" && Acceptable(p) && Tidy(p.id, p.name)
    ensures var q := Cleaned(if p.enabled.None? then p.(enabled := Some(true)) else p);
            HandleUpsert(c, p) == Ok(Config([q], if IsEnabled(p) && FindsItself(p) then q.id else "", c.agents))
  {
    hide Trim, Lower, Trimmed, NormalizeProviderID, FirstMatch, Matches, FirstNonEmpty, GoodID, Put, Tidy, FindsItself;
    TidyIsTrimmed(p.id, p.name);
    var q := Cleaned(Merged(c, p));
    var ref := FirstNonEmpty(p.id, p.name);
    MergedID(c, p);
    NothingToMerge(c, p);
    CleanedIsGood(Merged(c, p));
    NamesAreNotBlank(q);
    PutFirst(q);
    UpsertPuts(c, Merged(c, p));
    SingleMatch(q, ref);
    SingleMatch(q, q.id);
    SingleMatch(q, "");
    BlankFolds(q.id);
    FindsItselfIs(p, q);
    hide Upsert, Merged, Cleaned, Acceptable;
  }

  lemma NothingToMerge(c: Config, p: Provider)
    requires c.providers == []
    ensures Acceptable(Merged(c, p)) == Acceptable(p) && FoundID(c.providers, FirstNonEmpty(p.id, p.name)) == ""
    ensures Merged(c, p) == (if p.enabled.None? then p.(enabled := Some(true)) else p)
    ensures IsEnabled(Cleaned(Merged(c, p))) == IsEnabled(p)
  {
    hide Trim, NormalizeProviderID, FirstNonEmpty, Matches;
  }

  lemma BlankFolds(id: string)
    requires GoodID(id)
    ensures Trim("") == "" && Lower("") == "" && FirstNonEmpty("", id) == id && Lower(id) == id && FirstNonEmpty("", "") == ""
  {
    TrimLower(id);
    if !Trimmed(id) {
      FoldedLonger(id);
      assert false;
    }
    assert Trim(id) == id;
  }

  // ---------------------------------------------------------------- where it does go wrong

  const NO_PROVIDERS: Config := Config([], "", [])

  /** A provider that comes with a dash and a tab before its name breaks the registry, and stored twice it is
      there twice. */
  lemma TabProvider() returns (p: Provider)
    ensures Integrity(NO_PROVIDERS) && Upsert(NO_PROVIDERS, p).Ok? && !Integrity(Upsert(NO_PROVIDERS, p).value)
    ensures StoredTwice(NO_PROVIDERS, p)
  {
    p := Provider("", "-\tx", "openai", "", None);
    hide NormalizeProviderID, Tidy, Trim, Lower, Trimmed, Acceptable, Folded, Upsert, Cleaned, StoredTwice;
    TabProviderIs(p);
    UpsertPuts(NO_PROVIDERS, p);
    assert Integrity(NO_PROVIDERS);
    UpsertKeeps(NO_PROVIDERS, p);
    UntrimmedIsStoredTwice(NO_PROVIDERS, p);
  }

  lemma TabProviderIs(p: Provider)
    requires p == Provider("", "-\tx", "openai", "", None)
    ensures Acceptable(p) && !Tidy(p.id, p.name)
  {
    hide NormalizeProviderID, Tidy, Trim, Lower;
    TabExample();
    assert Trimmed("-\tx") && Trimmed("openai") && !Trimmed("\tx");
    hide Trimmed;
    assert Trim("-\tx") == "-\tx" && Trim("openai") == "openai";
    TidyIsTrimmed("", "-\tx");
  }

  /** A first provider that does not become the default: its ID is normalised, and its name is another. */
  lemma NoDefaultYet() returns (p: Provider)
    ensures HandleUpsert(NO_PROVIDERS, p) == Ok(Config([Provider("open-ai", "Gateway", "openai", "", Some(true))], "", []))
  {
    p := Provider("Open AI", "Gateway", "openai", "", None);
    hide NormalizeProviderID, Tidy, Trim, Lower, Trimmed, Acceptable, Matches, FirstNonEmpty, HandleUpsert;
    OpenAI(p);
    FirstBecomesDefault(NO_PROVIDERS, p);
  }

  lemma OpenAI(p: Provider)
    requires p == Provider("Open AI", "Gateway", "openai", "", None)
    ensures Acceptable(p) && Tidy(p.id, p.name)
    ensures var q := Cleaned(Merged(NO_PROVIDERS, p));
            q == Provider("open-ai", "Gateway", "openai", "", Some(true)) && !FindsItself(p)
  {
    OpenAIName();
    OpenAITexts();
    TidyIsTrimmed("Open AI", "Gateway");
    hide NormalizeProviderID, Tidy, Trim, Lower;
    assert Trimmed("open-ai");
    hide Trimmed;
    assert Merged(NO_PROVIDERS, p) == p.(enabled := Some(true));
  }

  lemma OpenAITexts()
    ensures Trim("Open AI") == "Open AI" && Trim("Gateway") == "Gateway" && Trim("openai") == "openai" && Trim("") == ""
    ensures Trim(Lower("Open AI")) == "open ai" && Folded("open-ai") == "open-ai" && Folded("Gateway") == "gateway"
  {
    hide Trim, Lower;
    assert Trimmed("Open AI") && Trimmed("Gateway") && Trimmed("openai") && Trimmed("open ai") && Trimmed("open-ai");
    hide Trimmed;
    assert Lower("Open AI") == "open ai";
    assert Lower("Gateway") == "gateway";
    assert Lower("open-ai") == "open-ai";
  }

  /** Deleting the only provider, which is the default, leaves a default that names nothing. */
  lemma DanglingDefault() returns (c: Config)
    ensures Integrity(c) && Delete(c, "a").Some? && !Integrity(Delete(c, "a").value)
  {
    var p := Provider("a", "A", "openai", "", None);
    c := Config([p], "a", []);
    FoldedLetter();
    hide Folded, Trim, Lower;
    assert GoodID("a") && Matches(p, "a");
    SingleMatch(p, "a");
    assert c.providers[0].id == "a" && IsID(c.providers, "a");
    hide Matches;
    DeleteIs(c, "a");
    DeleteKeeps(c, "a");
  }

  lemma FoldedLetter()
    ensures Folded("a") == "a" && Trim(Lower("a")) == "a"
  {
    assert Trimmed("a") && Trim("a") == "a";
    assert Lower("a") == "a";
  }

  /** Two providers, the second under the name of the first as its ID. */
  const TWO_NAMES: Config := Config(
    [Provider("a", "x", "openai", "ka", None), Provider("x", "c", "openai", "kx", None)], "", [])

  lemma TwoNamesIs()
    ensures Integrity(TWO_NAMES) && FirstMatch(TWO_NAMES.providers, "x") == 0 && Folded("x") == "x" && Trim("x") == "x"
    ensures !NoNameBefore(TWO_NAMES.providers, 1)
  {
    FoldedLetter();
    var ps := TWO_NAMES.providers;
    assert Trimmed("x") && Trim("x") == "x" && Lower("x") == "x";
    hide Folded, Trim, Lower;
    assert GoodID(ps[0].id) && GoodID(ps[1].id);
    assert Matches(ps[0], "x");
    assert Folded(ps[0].name) == ps[1].id;
  }

  /** Deleting "x" deletes "a" and keeps "x". */
  lemma WrongOneDeleted()
    ensures HandleDelete(TWO_NAMES, "x") == Ok(TWO_NAMES.(providers := [TWO_NAMES.providers[1]]))
  {
    hide Integrity, Folded, Trim, Lower, FirstMatch, NoNameBefore, HandleDelete;
    TwoNamesIs();
    FoldedLetter();
    EmptyFolds();
    HandleDeleteIs(TWO_NAMES, "x");
    assert Without(TWO_NAMES.providers, 0) == [TWO_NAMES.providers[1]];
    assert Cleared(TWO_NAMES.agents, "a") == [];
  }

  lemma EmptyFolds()
    ensures Folded("") == ""
  {
    assert Trim("") == "";
  }

  lemma HandleDeleteIs(c: Config, id: string)
    requires Trim(id) == id != "" && FirstMatch(c.providers, id) < |c.providers|
    requires Folded(c.defaultRef) != Folded(c.providers[FirstMatch(c.providers, id)].id)
    ensures var i := FirstMatch(c.providers, id);
            HandleDelete(c, id) ==
            Ok(c.(providers := Without(c.providers, i), agents := Cleared(c.agents, c.providers[i].id)))
  {
    hide Folded, Trim, FirstMatch, Without, Cleared;
  }

  /** Storing "x" without a key gives it the key of "a". */
  lemma WrongKeyStored() returns (p: Provider)
    ensures p.id == "x" && HandleUpsert(TWO_NAMES, p).Ok?
    ensures var ps := HandleUpsert(TWO_NAMES, p).value.providers;
            |ps| == 2 && ps[1].id == "x" && ps[1].apiKey == "ka"
  {
    hide Integrity, Folded, Trim, Lower, FirstMatch, NormalizeProviderID, HandleUpsert, NoNameBefore, Acceptable;
    p := Provider("x", "c", "openai", "", None);
    TwoNamesIs();
    XIsAcceptable(p);
    KeepsKeyByID(TWO_NAMES, p, 1);
  }

  lemma XIsAcceptable(p: Provider)
    requires p == Provider("x", "c", "openai", "", None)
    ensures Acceptable(p) && NormalizeProviderID(p.id, p.name) == p.id && Trim(p.apiKey) == ""
    ensures Trim("ka") == "ka"
  {
    LetterIsItsID("c");
    hide Trim, Lower, NormalizeProviderID;
    assert Trimmed("c") && Trimmed("openai") && Trimmed("") && Trimmed("ka");
    hide Trimmed;
    assert Trim("c") == "c" && Trim("openai") == "openai";
  }
}
