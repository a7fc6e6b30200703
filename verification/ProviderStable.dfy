/** Saving and loading provider settings once more: which settings are then in normal form. */
module ProviderStable {
  import opened Wrappers
  import opened Provider
  import opened ProviderEndpoint
  import opened ProviderRoundTrip
  import Keyed

  predicate Blank(s: string) { Trim(s) == "" }

  /** Every supported reasoning level is blank. */
  predicate NoLevels(m: CustomModel) {
    forall i :: 0 <= i < |m.supportedReasoningLevels| ==> Blank(m.supportedReasoningLevels[i])
  }

  /** A default level is saved only because blank levels are listed beside it. */
  predicate Stray(m: CustomModel) {
    && m.supportedReasoningLevels != [] && NoLevels(m)
    && m.defaultReasoningLevel.Some? && !Blank(m.defaultReasoningLevel.value)
  }

  predicate NoWindow(n: Option<int>) { n.Some? ==> n.value <= 0 }

  /** A model that is saved as a table only for settings that do not load, and names the default modalities
      in the other order. */
  predicate Flips(m: CustomModel) {
    && !IsPlain(m) && !Stray(m) && NoWindow(m.contextWindow) && NoWindow(m.maxContextWindow) && NoLevels(m)
    && Keyed.FirstSeen(Modalities(m.inputModalities)) == ["image", "text"]
  }

  // ----- the parts of a loaded model -----

  lemma {:induction false} TrimmedAway(names: seq<string>)
    ensures NonEmptyTrimmed(names) == [] <==> forall i :: 0 <= i < |names| ==> Blank(names[i])
  {
    if names != [] {
      TrimmedAway(names[1..]);
      assert forall i :: 1 <= i < |names| ==> names[1..][i - 1] == names[i];
    }
  }

  lemma FirstSeenEmpty(names: seq<string>)
    ensures Keyed.FirstSeen(names) == [] <==> names == []
  {
    assert names != [] ==> names[0] in Keyed.FirstSeen(names);
  }

  lemma NamesNormal(names: seq<string>)
    ensures NormalNames(Keyed.FirstSeen(NonEmptyTrimmed(names)))
  {
    var kept := NonEmptyTrimmed(names);
    var seen := Keyed.FirstSeen(kept);
    NamesTrimmed(names);
    forall i | 0 <= i < |seen|
      ensures seen[i] != "" && Trimmed(seen[i])
    {
      assert seen[i] in seen && seen[i] in kept;
    }
  }

  lemma ModalitiesNormal(names: seq<string>)
    ensures NormalModalities(ReloadedModalities(names))
  {
    var kept := Modalities(names);
    if kept == [] {
      assert |"text"| != |"image"|;
    } else {
      var seen := Keyed.FirstSeen(kept);
      FirstSeenEmpty(kept);
      forall i | 0 <= i < |seen|
        ensures IsModality(seen[i])
      {
        assert seen[i] in seen && seen[i] in kept;
      }
    }
  }

  /** Two modalities that are the default ones are these in one of two orders. */
  lemma TwoOrders(names: seq<string>)
    requires NormalModalities(names)
    ensures UsesDefaults(Modalities(names)) <==> names == DEFAULT_MODALITIES || names == ["image", "text"]
  {
    ModalitiesKept(names);
    assert |"text"| != |"image"|;
  }

  // ----- when a loaded model is in normal form -----

  lemma LoadedPlain(m: CustomModel)
    requires !IsPlain(m)
    ensures IsPlain(ReloadedModel(m)) <==>
      && NoWindow(m.contextWindow) && NoWindow(m.maxContextWindow) && NoLevels(m) && !Stray(m)
      && (ReloadedModalities(m.inputModalities) == DEFAULT_MODALITIES
          || ReloadedModalities(m.inputModalities) == ["image", "text"])
  {
    TrimmedAway(m.supportedReasoningLevels);
    FirstSeenEmpty(NonEmptyTrimmed(m.supportedReasoningLevels));
    ModalitiesNormal(m.inputModalities);
    TwoOrders(ReloadedModalities(m.inputModalities));
  }

  lemma LoadedLevel(m: CustomModel)
    requires !IsPlain(m)
    ensures var r := ReloadedModel(m);
      (r.defaultReasoningLevel.Some? ==>
         r.supportedReasoningLevels != [] && r.defaultReasoningLevel.value != ""
         && Trimmed(r.defaultReasoningLevel.value))
      <==> !Stray(m)
  {
    TrimmedAway(m.supportedReasoningLevels);
    FirstSeenEmpty(NonEmptyTrimmed(m.supportedReasoningLevels));
    if m.defaultReasoningLevel.Some? {
      TrimMeaning(m.defaultReasoningLevel.value);
    }
  }

  /** A model that was saved and loaded is in normal form, so that saving and loading it again changes
      nothing, exactly when it had no stray default level and does not change its order of modalities. */
  lemma LoadedNormal(m: CustomModel)
    requires Trim(m.id) != ""
    ensures NormalModel(ReloadedModel(m)) <==> !Stray(m) && !Flips(m)
  {
    TrimMeaning(m.id);
    if IsPlain(m) {
      assert NormalModalities(DEFAULT_MODALITIES) by {
        assert |"text"| != |"image"|;
      }
    } else {
      ModalitiesNormal(m.inputModalities);
      NamesNormal(m.supportedReasoningLevels);
      LoadedPlain(m);
      LoadedLevel(m);
      assert DEFAULT_MODALITIES[0] != "image" by {
        assert |"text"| != |"image"|;
      }
    }
  }

  /** Saving and loading twice is saving and loading once exactly under that condition. */
  lemma ModelIdempotent(m: CustomModel)
    requires Trim(m.id) != ""
    ensures ReadModel(WriteModel(ReloadedModel(m))) == Some(ReloadedModel(m)) <==> !Stray(m) && !Flips(m)
    ensures ReadModel(WriteModel(m)) == Some(ReloadedModel(m))
  {
    ModelReload(m);
    LoadedNormal(m);
    ModelRoundTrip(ReloadedModel(m));
  }

  // ----- how often it takes -----

  /** What is loaded has no stray default level, since no loaded level is blank. */
  lemma LoadedNotStray(m: CustomModel)
    ensures !Stray(ReloadedModel(m))
  {
    var r := ReloadedModel(m);
    if !IsPlain(m) {
      NamesNormal(m.supportedReasoningLevels);
      if r.supportedReasoningLevels != [] {
        var level := r.supportedReasoningLevels[0];
        TrimMeaning(level);
        assert Trim(level) == level;
      }
    }
  }

  /** A loaded model that had no stray default level keeps its order from then on. */
  lemma LoadedTwice(m: CustomModel)
    requires Trim(m.id) != "" && !Stray(m)
    ensures NormalModel(ReloadedModel(ReloadedModel(m)))
  {
    var r := ReloadedModel(m);
    TrimMeaning(m.id);
    LoadedNotStray(m);
    if Flips(m) {
      LoadedPlain(m);
    } else {
      LoadedNormal(m);
      ModelUnchanged(r);
    }
    LoadedNormal(r);
  }

  /** Whatever its settings, a model is in normal form once it was saved and loaded three times. */
  lemma ThreeTimes(m: CustomModel)
    requires Trim(m.id) != ""
    ensures NormalModel(ReloadedModel(ReloadedModel(ReloadedModel(m))))
  {
    TrimMeaning(m.id);
    LoadedNotStray(m);
    LoadedTwice(ReloadedModel(m));
  }

  /** Three times can be needed. */
  lemma ThreeNeeded()
    ensures var m := CustomModel("m", None, None, ["image", "text"], Some("high"), [" "]);
      Trim(m.id) != "" && !NormalModel(ReloadedModel(m)) && !NormalModel(ReloadedModel(ReloadedModel(m)))
  {
    var m := CustomModel("m", None, None, ["image", "text"], Some("high"), [" "]);
    assert Trim("m") == "m" by {
      TrimMeaning("m");
    }
    assert Trim(" ") == "";
    assert Trim("high") == "high" by {
      TrimMeaning("high");
    }
    assert Stray(m);
    LoadedNormal(m);
    var r := ReloadedModel(m);
    assert Modalities(["image", "text"]) == ["image", "text"] by {
      ModalitiesKept(["image", "text"]);
    }
    assert |"text"| != |"image"|;
    Keyed.FirstSeenDistinct(["image", "text"]);
    assert NonEmptyTrimmed([" "]) == [] by {
      TrimmedAway([" "]);
    }
    assert r == CustomModel("m", None, None, ["image", "text"], Some("high"), []);
    LoadedNotStray(m);
    assert Flips(r);
    LoadedNormal(r);
  }

  // ----- whole configurations -----

  predicate SettledModel(m: CustomModel) { Blank(m.id) || (!Stray(m) && !Flips(m)) }

  ghost predicate AllNormal(models: seq<CustomModel>) { forall i :: 0 <= i < |models| ==> NormalModel(models[i]) }

  predicate AllSettled(models: seq<CustomModel>) { forall i :: 0 <= i < |models| ==> SettledModel(models[i]) }

  lemma AllNormalCons(m: CustomModel, rest: seq<CustomModel>)
    ensures AllNormal([m] + rest) <==> NormalModel(m) && AllNormal(rest)
  {
    var all := [m] + rest;
    assert all[0] == m && forall i :: 0 <= i < |rest| ==> all[i + 1] == rest[i];
  }

  lemma AllSettledCons(models: seq<CustomModel>)
    requires models != []
    ensures AllSettled(models) <==> SettledModel(models[0]) && AllSettled(models[1..])
  {
    assert forall i :: 1 <= i < |models| ==> models[1..][i - 1] == models[i];
  }

  lemma {:induction false} ModelsNormal(models: seq<CustomModel>)
    ensures AllNormal(ReloadedModels(models)) <==> AllSettled(models)
  {
    if models != [] {
      var rest := ReloadedModels(models[1..]);
      ModelsNormal(models[1..]);
      AllSettledCons(models);
      if Blank(models[0].id) {
        assert [] + rest == rest;
      } else {
        LoadedNormal(models[0]);
        AllNormalCons(ReloadedModel(models[0]), rest);
      }
    }
  }

  lemma LoadedEndpoint(c: ProviderConfig, urlPath: UrlPath)
    ensures var r, once := ReloadedEndpoint(c, urlPath), Endpoint(c.modelsEndpoint, c.baseUrl, urlPath);
      Endpoint(r, Trim(c.baseUrl), urlPath) == r
      <==> !(IsRelative(Trim(once)) && Restarts(Trim(once), BaseSegments(c.baseUrl, urlPath)))
  {
    TrimMeaning(c.baseUrl);
    TrimMeaning(c.modelsEndpoint);
    var once := Endpoint(c.modelsEndpoint, c.baseUrl, urlPath);
    assert BaseSegments(Trim(c.baseUrl), urlPath) == BaseSegments(c.baseUrl, urlPath);
    assert Trim(c.modelsEndpoint) == "" ==> once == "";
    EndpointIdempotent(once, Trim(c.baseUrl), urlPath);
  }

  lemma LoadedTexts(c: ProviderConfig)
    ensures Trimmed(Trim(c.name)) && Trimmed(Trim(c.baseUrl)) && Trimmed(Trim(c.apiKey)) && Trimmed(Trim(c.envKey))
    ensures NormalBalance(ReloadedBalance(c.balance))
  {
    TrimMeaning(c.name);
    TrimMeaning(c.baseUrl);
    TrimMeaning(c.apiKey);
    TrimMeaning(c.envKey);
    TrimMeaning(c.balance.endpoint);
    TrimMeaning(c.balance.valuePath);
    TrimMeaning(c.balance.currencyPath);
    TrimMeaning(c.balance.text);
  }

  /** Settings that were saved and loaded stay as they are when that is done again, exactly when every
      model that loads is settled and the endpoint, once normalised, does not restart the base path. */
  lemma ConfigIdempotent(c: ProviderConfig, urlPath: UrlPath)
    ensures var r, once := Reloaded(c, urlPath), Endpoint(c.modelsEndpoint, c.baseUrl, urlPath);
      && ReadConfig(WriteConfig(c, urlPath), urlPath) == r
      && (ReadConfig(WriteConfig(r, urlPath), urlPath) == r <==>
            && !(IsRelative(Trim(once)) && Restarts(Trim(once), BaseSegments(c.baseUrl, urlPath)))
            && AllSettled(c.customModels))
  {
    var r := Reloaded(c, urlPath);
    ConfigReload(c, urlPath);
    SaveAndReload(r, urlPath);
    LoadedTexts(c);
    LoadedEndpoint(c, urlPath);
    EndpointFixed(r.modelsEndpoint, r.baseUrl, urlPath);
    ModelsNormal(c.customModels);
    assert AllNormal(r.customModels) <==> AllSettled(c.customModels);
  }
}
