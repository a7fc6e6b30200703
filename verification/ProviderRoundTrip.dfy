/** Saving provider settings and loading them again changes nothing exactly when they are in normal form. */
module ProviderRoundTrip {
  import opened Wrappers
  import opened Json
  import opened Provider
  import opened ProviderEndpoint
  import Keyed

  // ----- normal form -----

  ghost predicate NormalNames(names: seq<string>) {
    Keyed.Distinct(names) && forall i :: 0 <= i < |names| ==> names[i] != "" && Trimmed(names[i])
  }

  ghost predicate NormalModalities(names: seq<string>) {
    names != [] && Keyed.Distinct(names) && forall i :: 0 <= i < |names| ==> IsModality(names[i])
  }

  predicate NormalWindow(n: Option<int>) { n.Some? ==> n.value > 0 }

  ghost predicate NormalModel(m: CustomModel) {
    && m.id != "" && Trimmed(m.id)
    && NormalWindow(m.contextWindow) && NormalWindow(m.maxContextWindow)
    && NormalModalities(m.inputModalities) && (IsPlain(m) ==> m.inputModalities == DEFAULT_MODALITIES)
    && NormalNames(m.supportedReasoningLevels)
    && (m.defaultReasoningLevel.Some? ==>
          m.supportedReasoningLevels != [] && m.defaultReasoningLevel.value != ""
            && Trimmed(m.defaultReasoningLevel.value))
  }

  /** Complete and trimmed, or empty. */
  predicate NormalBalance(b: Balance) {
    || b == Balance("", "", "", "")
    || (b.endpoint != "" && b.valuePath != "" && Trimmed(b.endpoint) && Trimmed(b.valuePath) && Trimmed(b.currencyPath)
        && Trimmed(b.text))
  }

  ghost predicate NormalConfig(c: ProviderConfig, urlPath: UrlPath) {
    && Trimmed(c.name) && Trimmed(c.baseUrl) && Trimmed(c.apiKey) && Trimmed(c.envKey)
    && Trimmed(c.modelsEndpoint)
    && !(IsRelative(c.modelsEndpoint) && Repeats(c.modelsEndpoint, BaseSegments(c.baseUrl, urlPath)))
    && NormalBalance(c.balance)
    && forall i :: 0 <= i < |c.customModels| ==> NormalModel(c.customModels[i])
  }

  // ----- lists -----

  lemma {:induction false} TextsOfStrings(names: seq<string>)
    ensures Texts(Strings(names)) == names
  {
    if names != [] {
      TextsOfStrings(names[1..]);
      assert Strings(names)[1..] == Strings(names[1..]);
      assert [names[0]] + names[1..] == names;
    }
  }

  lemma {:induction false} ModalitiesKept(names: seq<string>)
    requires forall i :: 0 <= i < |names| ==> IsModality(names[i])
    ensures Modalities(names) == names
  {
    if names != [] {
      ModalitiesKept(names[1..]);
      assert [names[0]] + names[1..] == names;
    }
  }

  lemma ModalitiesReload(names: seq<string>)
    ensures (Modalities(names) != [] && Keyed.FirstSeen(Modalities(names)) == names) <==> NormalModalities(names)
  {
    var kept := Modalities(names);
    assert kept != [] ==> kept[0] in Keyed.FirstSeen(kept);
    if NormalModalities(names) {
      ModalitiesKept(names);
      Keyed.FirstSeenDistinct(names);
    } else if kept != [] && Keyed.FirstSeen(kept) == names {
      forall i | 0 <= i < |names|
        ensures IsModality(names[i])
      {
        assert names[i] in names && names[i] in kept;
      }
    }
  }

  lemma {:induction false} NamesTrimmed(names: seq<string>)
    ensures forall i :: 0 <= i < |NonEmptyTrimmed(names)| ==>
      NonEmptyTrimmed(names)[i] != "" && Trimmed(NonEmptyTrimmed(names)[i])
    ensures (forall i :: 0 <= i < |names| ==> names[i] != "" && Trimmed(names[i])) ==> NonEmptyTrimmed(names) == names
  {
    if names != [] {
      NamesTrimmed(names[1..]);
      TrimMeaning(names[0]);
      assert [names[0]] + names[1..] == names;
    }
  }

  lemma NamesReload(names: seq<string>)
    ensures Keyed.FirstSeen(NonEmptyTrimmed(names)) == names <==> NormalNames(names)
  {
    NamesTrimmed(names);
    if NormalNames(names) {
      Keyed.FirstSeenDistinct(names);
    } else if Keyed.FirstSeen(NonEmptyTrimmed(names)) == names {
      forall i | 0 <= i < |names|
        ensures names[i] != "" && Trimmed(names[i])
      {
        assert names[i] in names && names[i] in NonEmptyTrimmed(names);
      }
    }
  }

  // ----- models -----

  function ReloadedWindow(n: Option<int>): Option<int> { if n.Some? && n.value > 0 then n else None }

  function ReloadedModalities(names: seq<string>): seq<string> {
    if Modalities(names) == [] then DEFAULT_MODALITIES else Keyed.FirstSeen(Modalities(names))
  }

  function ReloadedLevel(m: CustomModel): Option<string> {
    if m.supportedReasoningLevels != [] && m.defaultReasoningLevel.Some?
      && Trim(m.defaultReasoningLevel.value) != "" then
      Some(Trim(m.defaultReasoningLevel.value))
    else None
  }

  function ReloadedModel(m: CustomModel): CustomModel {
    if IsPlain(m) then PlainModel(Trim(m.id))
    else CustomModel(Trim(m.id), ReloadedWindow(m.contextWindow), ReloadedWindow(m.maxContextWindow),
                     ReloadedModalities(m.inputModalities), ReloadedLevel(m),
                     Keyed.FirstSeen(NonEmptyTrimmed(m.supportedReasoningLevels)))
  }

  lemma PutGet(m: map<string, Json>, present: bool, key: string, value: Json, k: string)
    ensures Get(Object(Put(m, present, key, value)), k) == if present && k == key then value else Get(Object(m), k)
  {
  }

  function WrittenModalities(m: CustomModel): Json {
    var modalities := Modalities(m.inputModalities);
    List(Strings(if modalities != [] then modalities else DEFAULT_MODALITIES))
  }

  function WrittenLevel(m: CustomModel): Json {
    if m.defaultReasoningLevel.Some? then Str(m.defaultReasoningLevel.value) else Null
  }

  /** Reading a key of a model that was written as a table, through the keys written after it. */
  lemma ModelField(m: CustomModel, k: string)
    requires !IsPlain(m)
    ensures Get(WriteModel(m), k) ==
      if k == "default_reasoning_level" && m.supportedReasoningLevels != [] && m.defaultReasoningLevel.Some? then
        WrittenLevel(m)
      else if k == "supported_reasoning_levels" && m.supportedReasoningLevels != [] then
        List(Strings(m.supportedReasoningLevels))
      else if k == "max_context_window" && m.maxContextWindow.Some? then OptionalNum(m.maxContextWindow)
      else if k == "context_window" && m.contextWindow.Some? then OptionalNum(m.contextWindow)
      else if k == "input_modalities" then WrittenModalities(m)
      else if k == "id" then Str(Trim(m.id))
      else Null
  {
    var levels := m.supportedReasoningLevels != [];
    var a := map["id" := Str(Trim(m.id)), "input_modalities" := WrittenModalities(m)];
    var b := Put(a, m.contextWindow.Some?, "context_window", OptionalNum(m.contextWindow));
    var c := Put(b, m.maxContextWindow.Some?, "max_context_window", OptionalNum(m.maxContextWindow));
    var d := Put(c, levels, "supported_reasoning_levels", List(Strings(m.supportedReasoningLevels)));
    PutGet(a, m.contextWindow.Some?, "context_window", OptionalNum(m.contextWindow), k);
    PutGet(b, m.maxContextWindow.Some?, "max_context_window", OptionalNum(m.maxContextWindow), k);
    PutGet(c, levels, "supported_reasoning_levels", List(Strings(m.supportedReasoningLevels)), k);
    PutGet(d, levels && m.defaultReasoningLevel.Some?, "default_reasoning_level", WrittenLevel(m), k);
  }

  /** The fields of a model that was written as a table. */
  predicate ModelFields(j: Json, m: CustomModel) {
    var levels := m.supportedReasoningLevels;
    && j.Object? && Get(j, "id") == Str(Trim(m.id))
    && Get(j, "context_window") == OptionalNum(m.contextWindow)
    && Get(j, "max_context_window") == OptionalNum(m.maxContextWindow)
    && Get(j, "input_modalities") == WrittenModalities(m)
    && Get(j, "supported_reasoning_levels") == (if levels != [] then List(Strings(levels)) else Null)
    && Get(j, "default_reasoning_level") == if levels != [] then WrittenLevel(m) else Null
  }

  lemma WritesFields(m: CustomModel)
    requires !IsPlain(m)
    ensures ModelFields(WriteModel(m), m)
  {
    ModelField(m, "id");
    ModelField(m, "context_window");
    ModelField(m, "max_context_window");
    ModelField(m, "input_modalities");
    ModelField(m, "supported_reasoning_levels");
    ModelField(m, "default_reasoning_level");
  }

  lemma ModalitiesWritten(written: seq<string>)
    requires written != [] && forall i :: 0 <= i < |written| ==> IsModality(written[i])
    ensures ReadModalities(List(Strings(written))) == Keyed.FirstSeen(written)
  {
    TextsOfStrings(written);
    ModalitiesKept(written);
  }

  lemma DefaultsDistinct()
    ensures Keyed.FirstSeen(DEFAULT_MODALITIES) == DEFAULT_MODALITIES
  {
    assert |"text"| != |"image"|;
    Keyed.FirstSeenDistinct(DEFAULT_MODALITIES);
  }

  lemma ModalitiesRead(names: seq<string>)
    ensures var ms := Modalities(names);
      ReadModalities(List(Strings(if ms != [] then ms else DEFAULT_MODALITIES))) == ReloadedModalities(names)
  {
    var ms := Modalities(names);
    ModalitiesWritten(if ms != [] then ms else DEFAULT_MODALITIES);
    DefaultsDistinct();
  }

  lemma LevelsRead(levels: seq<string>)
    ensures ReadLevels(if levels != [] then List(Strings(levels)) else Null) == Keyed.FirstSeen(NonEmptyTrimmed(levels))
  {
    TextsOfStrings(levels);
  }

  lemma ModelReload(m: CustomModel)
    requires Trim(m.id) != ""
    ensures ReadModel(WriteModel(m)) == Some(ReloadedModel(m))
  {
    TrimMeaning(m.id);
    if !IsPlain(m) {
      WritesFields(m);
      ModalitiesRead(m.inputModalities);
      LevelsRead(m.supportedReasoningLevels);
    }
  }

  lemma PlainRoundTrip(m: CustomModel)
    requires IsPlain(m)
    ensures Trim(m.id) != "" && ReloadedModel(m) == m <==> NormalModel(m)
  {
    TrimMeaning(m.id);
    assert NormalModalities(DEFAULT_MODALITIES);
  }

  lemma LevelReload(m: CustomModel)
    ensures ReloadedLevel(m) == m.defaultReasoningLevel <==>
      (m.defaultReasoningLevel.Some? ==>
         m.supportedReasoningLevels != [] && m.defaultReasoningLevel.value != ""
           && Trimmed(m.defaultReasoningLevel.value))
  {
    if m.defaultReasoningLevel.Some? {
      TrimMeaning(m.defaultReasoningLevel.value);
    }
  }

  lemma ModalitiesUnchanged(m: CustomModel)
    requires !IsPlain(m)
    ensures ReloadedModalities(m.inputModalities) == m.inputModalities <==> NormalModalities(m.inputModalities)
  {
    ModalitiesReload(m.inputModalities);
    ModalitiesKept(DEFAULT_MODALITIES);
  }

  /** A model comes back as it was exactly when it is in normal form. */
  lemma ModelUnchanged(m: CustomModel)
    ensures Trim(m.id) != "" && ReloadedModel(m) == m <==> NormalModel(m)
  {
    if IsPlain(m) {
      PlainRoundTrip(m);
    } else {
      TrimMeaning(m.id);
      ModalitiesUnchanged(m);
      NamesReload(m.supportedReasoningLevels);
      LevelReload(m);
    }
  }

  /** Reading what was written for a model gives the model exactly when it is in normal form. */
  lemma ModelRoundTrip(m: CustomModel)
    ensures ReadModel(WriteModel(m)) == Some(m) <==> NormalModel(m)
  {
    ModelUnchanged(m);
    TrimMeaning(m.id);
    if Trim(m.id) != "" {
      ModelReload(m);
    } else if !IsPlain(m) {
      WritesFields(m);
    }
  }

  function ReloadedModels(models: seq<CustomModel>): seq<CustomModel> {
    if models == [] then []
    else (if Trim(models[0].id) != "" then [ReloadedModel(models[0])] else []) + ReloadedModels(models[1..])
  }

  lemma {:induction false} ModelsReload(models: seq<CustomModel>)
    ensures ReadModels(WriteModels(models)) == ReloadedModels(models)
            && |ReloadedModels(models)| == |WriteModels(models)|
  {
    if models != [] {
      ModelsReload(models[1..]);
      if Trim(models[0].id) != "" {
        ModelReload(models[0]);
        assert WriteModels(models)[1..] == WriteModels(models[1..]);
      } else {
        assert [] + WriteModels(models[1..]) == WriteModels(models[1..]);
      }
    }
  }

  lemma {:induction false} ModelsRoundTrip(models: seq<CustomModel>)
    ensures |ReloadedModels(models)| <= |models|
    ensures ReloadedModels(models) == models <==> forall i :: 0 <= i < |models| ==> NormalModel(models[i])
  {
    if models != [] {
      var rest := ReloadedModels(models[1..]);
      ModelsRoundTrip(models[1..]);
      ModelUnchanged(models[0]);
      assert models == [models[0]] + models[1..];
      assert forall i :: 1 <= i < |models| ==> models[1..][i - 1] == models[i];
      if Trim(models[0].id) != "" {
        assert ReloadedModels(models) == [ReloadedModel(models[0])] + rest;
        assert ReloadedModels(models)[1..] == rest;
      } else {
        assert ReloadedModels(models) == rest;
      }
    }
  }

  // ----- the whole configuration -----

  function ReloadedBalance(b: Balance): Balance {
    if Trim(b.endpoint) != "" && Trim(b.valuePath) != "" then
      Balance(Trim(b.endpoint), Trim(b.valuePath), Trim(b.currencyPath), Trim(b.text))
    else Balance("", "", "", "")
  }

  lemma BalanceReload(b: Balance)
    ensures ReadBalance(WriteBalance(b))
            == Balance(Trim(b.endpoint), Trim(b.valuePath), Trim(b.currencyPath), Trim(b.text))
    ensures ReloadedBalance(b) == b <==> NormalBalance(b)
  {
    TrimMeaning(b.endpoint);
    TrimMeaning(b.valuePath);
    TrimMeaning(b.currencyPath);
    TrimMeaning(b.text);
  }

  /** Reading a key of a written configuration, through the keys written after it. */
  lemma ConfigField(c: ProviderConfig, urlPath: UrlPath, k: string)
    ensures Get(WriteConfig(c, urlPath), k) ==
      if k == "custom_models" && WriteModels(c.customModels) != [] then List(WriteModels(c.customModels))
      else if k == "balance" && Trim(c.balance.endpoint) != "" && Trim(c.balance.valuePath) != "" then
        WriteBalance(c.balance)
      else if k == "models_endpoint" && Trim(c.modelsEndpoint) != "" then
        Str(Endpoint(c.modelsEndpoint, c.baseUrl, urlPath))
      else if k == "env_key" && Trim(c.envKey) != "" then Str(Trim(c.envKey))
      else if k == "experimental_bearer_token" && Trim(c.apiKey) != "" then Str(Trim(c.apiKey))
      else if k == "wire_api" then WriteWireApi(c.wireApi)
      else if k == "base_url" then Str(Trim(c.baseUrl))
      else if k == "name" then Str(Trim(c.name))
      else Null
  {
    var a := map["name" := Str(Trim(c.name)), "base_url" := Str(Trim(c.baseUrl)),
                 "wire_api" := WriteWireApi(c.wireApi)];
    var b := Put(a, Trim(c.apiKey) != "", "experimental_bearer_token", Str(Trim(c.apiKey)));
    var d := Put(b, Trim(c.envKey) != "", "env_key", Str(Trim(c.envKey)));
    var e := Put(d, Trim(c.modelsEndpoint) != "", "models_endpoint",
                 Str(Endpoint(c.modelsEndpoint, c.baseUrl, urlPath)));
    var f := Put(e, Trim(c.balance.endpoint) != "" && Trim(c.balance.valuePath) != "", "balance",
                 WriteBalance(c.balance));
    PutGet(a, Trim(c.apiKey) != "", "experimental_bearer_token", Str(Trim(c.apiKey)), k);
    PutGet(b, Trim(c.envKey) != "", "env_key", Str(Trim(c.envKey)), k);
    PutGet(d, Trim(c.modelsEndpoint) != "", "models_endpoint", Str(Endpoint(c.modelsEndpoint, c.baseUrl, urlPath)), k);
    PutGet(e, Trim(c.balance.endpoint) != "" && Trim(c.balance.valuePath) != "", "balance", WriteBalance(c.balance), k);
    PutGet(f, WriteModels(c.customModels) != [], "custom_models", List(WriteModels(c.customModels)), k);
  }

  function ReloadedEndpoint(c: ProviderConfig, urlPath: UrlPath): string {
    Endpoint(if Trim(c.modelsEndpoint) != "" then Endpoint(c.modelsEndpoint, c.baseUrl, urlPath) else "",
             Trim(c.baseUrl), urlPath)
  }

  lemma EndpointReload(c: ProviderConfig, urlPath: UrlPath)
    ensures ReloadedEndpoint(c, urlPath) == c.modelsEndpoint
            <==> Endpoint(c.modelsEndpoint, c.baseUrl, urlPath) == c.modelsEndpoint
  {
    TrimMeaning(c.baseUrl);
    TrimMeaning(c.modelsEndpoint);
    var once := Endpoint(c.modelsEndpoint, c.baseUrl, urlPath);
    TrimMeaning(once);
    assert BaseSegments(Trim(c.baseUrl), urlPath) == BaseSegments(c.baseUrl, urlPath);
  }

  function Reloaded(c: ProviderConfig, urlPath: UrlPath): ProviderConfig {
    ProviderConfig(Trim(c.name), Trim(c.baseUrl), Trim(c.apiKey), Trim(c.envKey), c.wireApi,
                   ReloadedEndpoint(c, urlPath),
                   ReloadedBalance(c.balance), ReloadedModels(c.customModels))
  }

  predicate TextFields(j: Json, c: ProviderConfig) {
    && Get(j, "name") == Str(Trim(c.name)) && Get(j, "base_url") == Str(Trim(c.baseUrl))
    && Get(j, "wire_api") == WriteWireApi(c.wireApi)
    && Text(Get(j, "experimental_bearer_token")) == Trim(c.apiKey) && Text(Get(j, "env_key")) == Trim(c.envKey)
  }

  predicate OtherFields(j: Json, c: ProviderConfig, urlPath: UrlPath) {
    && Get(j, "models_endpoint")
       == (if Trim(c.modelsEndpoint) != "" then Str(Endpoint(c.modelsEndpoint, c.baseUrl, urlPath)) else Null)
    && Get(j, "balance")
       == (if Trim(c.balance.endpoint) != "" && Trim(c.balance.valuePath) != "" then WriteBalance(c.balance) else Null)
    && Get(j, "custom_models")
       == if WriteModels(c.customModels) != [] then List(WriteModels(c.customModels)) else Null
  }

  lemma WritesTexts(c: ProviderConfig, urlPath: UrlPath)
    ensures TextFields(WriteConfig(c, urlPath), c)
  {
    ConfigField(c, urlPath, "name");
    ConfigField(c, urlPath, "base_url");
    ConfigField(c, urlPath, "wire_api");
    ConfigField(c, urlPath, "experimental_bearer_token");
    ConfigField(c, urlPath, "env_key");
  }

  lemma WritesOthers(c: ProviderConfig, urlPath: UrlPath)
    ensures OtherFields(WriteConfig(c, urlPath), c, urlPath)
  {
    ConfigField(c, urlPath, "models_endpoint");
    ConfigField(c, urlPath, "balance");
    ConfigField(c, urlPath, "custom_models");
  }

  lemma ReadsBalance(b: Balance)
    ensures ReadBalance(if Trim(b.endpoint) != "" && Trim(b.valuePath) != "" then WriteBalance(b) else Null)
            == ReloadedBalance(b)
  {
    BalanceReload(b);
  }

  lemma ReadsWireApi(w: WireApi)
    ensures ReadWireApi(WriteWireApi(w)) == w
  {
    assert "responses"[0] == 'r' && "chat"[0] == 'c' && "auto"[0] == 'a';
  }

  lemma ReadsModels(models: seq<CustomModel>)
    ensures var j := if WriteModels(models) != [] then List(WriteModels(models)) else Null;
      (if j.List? then ReadModels(j.items) else []) == ReloadedModels(models)
  {
    ModelsReload(models);
  }

  lemma ReadsFields(j: Json, c: ProviderConfig, urlPath: UrlPath)
    requires TextFields(j, c) && OtherFields(j, c, urlPath)
    ensures ReadConfig(j, urlPath) == Reloaded(c, urlPath)
  {
    ReadsBalance(c.balance);
    ReadsWireApi(c.wireApi);
    ReadsModels(c.customModels);
  }

  /** What saving and loading does to a configuration. */
  lemma ConfigReload(c: ProviderConfig, urlPath: UrlPath)
    ensures ReadConfig(WriteConfig(c, urlPath), urlPath) == Reloaded(c, urlPath)
  {
    WritesTexts(c, urlPath);
    WritesOthers(c, urlPath);
    ReadsFields(WriteConfig(c, urlPath), c, urlPath);
  }

  /** Saving and loading gives a configuration back exactly when it is in normal form. */
  lemma SaveAndReload(c: ProviderConfig, urlPath: UrlPath)
    ensures ReadConfig(WriteConfig(c, urlPath), urlPath) == c <==> NormalConfig(c, urlPath)
  {
    ConfigReload(c, urlPath);
    TrimMeaning(c.name);
    TrimMeaning(c.baseUrl);
    TrimMeaning(c.apiKey);
    TrimMeaning(c.envKey);
    EndpointReload(c, urlPath);
    EndpointFixed(c.modelsEndpoint, c.baseUrl, urlPath);
    BalanceReload(c.balance);
    ModelsRoundTrip(c.customModels);
  }
}
