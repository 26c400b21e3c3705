/**
 The configuration object that pkg/config/profiles.go and the provider handlers change in place. Every
 method does to `State()` what the model in `ProviderRegistry` says.
 */
module ProviderStore {
  import opened ProviderRegistry
  import opened ProviderSlug
  import opened Text
  import opened Wrappers

  /** The agents in the middle of the loop that clears them. */
  ghost function PartlyCleared(agents: seq<Agent>, id: string, k: nat): (r: seq<Agent>)
    requires k <= |agents|
    ensures |r| == |agents|
    ensures k == 0 ==> r == agents
    ensures k == |agents| ==> r == Cleared(agents, id)
  {
    Cleared(agents, id)[..k] + agents[k..]
  }

  lemma OneMoreCleared(agents: seq<Agent>, id: string, k: nat)
    requires k < |agents|
    ensures PartlyCleared(agents, id, k)[k := Unlinked(PartlyCleared(agents, id, k)[k], id)]
            == PartlyCleared(agents, id, k + 1)
  {
    hide Unlinked;
    assert Cleared(agents, id)[..k + 1] == Cleared(agents, id)[..k] + [Unlinked(agents[k], id)];
  }

  class Store {
    var providers: seq<Provider>
    var defaultRef: string
    var agents: seq<Agent>

    function State(): Config
      reads this
    {
      Config(providers, defaultRef, agents)
    }

    constructor (c: Config)
      ensures State() == c
    {
      providers := c.providers;
      defaultRef := c.defaultRef;
      agents := c.agents;
    }

    /** `FindProviderProfile`: the first provider whose ID or name the reference names. */
    method FindProviderProfile(ref: string) returns (r: Option<Provider>)
      ensures var i := FirstMatch(providers, ref);
              r == if i < |providers| then Some(providers[i]) else None
    {
      var i := Search(ref);
      r := if i < |providers| then Some(providers[i]) else None;
    }

    method Search(ref: string) returns (i: nat)
      ensures i == FirstMatch(providers, ref)
    {
      hide Matches;
      i := 0;
      while i < |providers|
        invariant i <= |providers|
        invariant FirstMatch(providers, ref) == i + FirstMatch(providers[i..], ref)
      {
        if Matches(providers[i], ref) {
          return;
        }
        assert providers[i..][1..] == providers[i + 1..];
        i := i + 1;
      }
    }

    /** `ApplyProviderProfile` as far as it tells whether there is an enabled provider to apply. */
    method ApplyProviderProfile(ref: string) returns (ok: bool)
      ensures ok <==> Applies(providers, ref)
    {
      hide FirstMatch;
      var i := Search(ref);
      ok := i < |providers| && IsEnabled(providers[i]);
    }

    /** It reports whether the new default can be applied, when it looks that up again by its ID. */
    method SetDefaultProviderProfile(ref: string) returns (ok: bool)
      modifies this`defaultRef
      ensures State() == SetDefault(old(State()), ref)
      ensures ok <==> Applies(providers, ref) && Applies(providers, defaultRef)
    {
      hide FirstMatch;
      var i := Search(ref);
      if i == |providers| || !IsEnabled(providers[i]) {
        return false;
      }
      defaultRef := providers[i].id;
      ok := ApplyProviderProfile(providers[i].id);
    }

    method UpsertProviderProfile(provider: Provider) returns (ok: bool)
      modifies this`providers
      ensures ok <==> Upsert(old(State()), provider).Ok?
      ensures if ok then Upsert(old(State()), provider) == Ok(State()) else State() == old(State())
    {
      hide Folded, NormalizeProviderID, Trim, Lower;
      var id := NormalizeID(provider.id, provider.name);
      var p := Provider(id, Trim(provider.name), Trim(provider.provider), Trim(provider.apiKey), provider.enabled);
      if p.id == "" || p.name == "" || p.provider == "" {
        return false;
      }
      var i := 0;
      while i < |providers|
        invariant i <= |providers| && providers == old(providers)
        invariant FirstWithID(providers, p.id) == i + FirstWithID(providers[i..], p.id)
      {
        if Folded(providers[i].id) == Lower(p.id) {
          providers := providers[i := p];
          return true;
        }
        assert providers[i..][1..] == providers[i + 1..];
        i := i + 1;
      }
      providers := providers + [p];
      ok := true;
    }

    method DeleteProviderProfile(ref: string) returns (ok: bool)
      modifies this`providers, this`agents
      ensures ok <==> Delete(old(State()), ref).Some?
      ensures if ok then Delete(old(State()), ref) == Some(State()) else State() == old(State())
    {
      hide FirstMatch, Cleared;
      var i := Search(ref);
      if i == |providers| {
        return false;
      }
      var deletedID := providers[i].id;
      providers := providers[..i] + providers[i + 1..];
      ClearReferences(deletedID);
      ok := true;
    }

    /** The loop that clears the agents' references to a deleted provider. */
    method ClearReferences(deletedID: string)
      modifies this`agents
      ensures agents == Cleared(old(agents), deletedID)
    {
      hide Unlinked, Cleared;
      for k := 0 to |agents|
        invariant agents == PartlyCleared(old(agents), deletedID, k)
      {
        OneMoreCleared(old(agents), deletedID, k);
        agents := agents[k := Unlinked(agents[k], deletedID)];
      }
    }

    /** `handleProviderUpsert`, once the request has been decoded and until the configuration is saved. */
    method HandleProviderUpsert(request: Provider) returns (ok: bool)
      modifies this
      ensures ok <==> HandleUpsert(old(State()), request).Ok?
      ensures if ok then HandleUpsert(old(State()), request) == Ok(State()) else State() == old(State())
    {
      hide FirstMatch, Upsert, SetDefault, Trim, Lower;
      var provider := request;
      if provider.enabled.None? {
        provider := provider.(enabled := Some(true));
      }
      var ref := FirstNonEmpty(request.id, request.name);
      var existing := FindProviderProfile(ref);
      if existing.Some? && Trim(provider.apiKey) == "" {
        provider := provider.(apiKey := existing.value.apiKey);
      }
      var wasDefault := Trim(defaultRef);
      ok := UpsertProviderProfile(provider);
      if !ok {
        return;
      }
      var updated := FindProviderProfile(ref);
      var updatedID := if updated.Some? then updated.value.id else "";
      var existingID := if existing.Some? then existing.value.id else "";
      if Trim(defaultRef) == "" && (updated.Some? ==> IsEnabled(updated.value)) {
        var done := SetDefaultProviderProfile(updatedID);
      } else if Lower(wasDefault) == Lower(FirstNonEmpty(existingID, updatedID)) || Lower(wasDefault) == Lower(updatedID) {
        var done := SetDefaultProviderProfile(updatedID);
      }
    }

    /** `handleProviderDelete`, until the configuration is saved. */
    method HandleProviderDelete(query: string) returns (err: Option<RegistryError>)
      modifies this
      ensures match HandleDelete(old(State()), query)
              case Ok(d) => err == None && State() == d
              case Err(e) => err == Some(e) && State() == old(State())
    {
      hide FirstMatch, Delete, Folded, Trim;
      var id := Trim(query);
      if id == "" {
        return Some(IDRequired);
      }
      var existing := FindProviderProfile(id);
      if existing.None? {
        return Some(RegistryError.NotFound);
      }
      if Folded(defaultRef) == Folded(existing.value.id) && |providers| > 1 {
        return Some(SwitchDefaultFirst);
      }
      var ok := DeleteProviderProfile(id);
      if !ok {
        return Some(RegistryError.NotFound);
      }
      if Folded(defaultRef) == Folded(existing.value.id) {
        defaultRef := "";
      }
      err := None;
    }
  }
}
