/** Provider settings: reading them from the configuration and writing them back. */
module Provider {
  import opened Wrappers
  import opened Json
  import Keyed

  // ----- strings -----

  /** The characters that `String.prototype.trim` removes. */
  predicate IsSpace(c: char) {
    var n := c as int;
    9 <= n <= 13 || n == 0x20 || n == 0xA0 || n == 0x1680 || 0x2000 <= n <= 0x200A || n == 0x2028 || n == 0x2029
    || n == 0x202F || n == 0x205F || n == 0x3000 || n == 0xFEFF
  }

  function TrimStart(s: string): (r: string)
    ensures |r| <= |s| && (r != [] ==> !IsSpace(r[0]))
  {
    if s != [] && IsSpace(s[0]) then TrimStart(s[1..]) else s
  }

  function TrimEnd(s: string): (r: string)
    ensures r <= s && (r != [] ==> !IsSpace(r[|r| - 1]))
  {
    if s != [] && IsSpace(s[|s| - 1]) then TrimEnd(s[..|s| - 1]) else s
  }

  function Trim(s: string): string { TrimEnd(TrimStart(s)) }

  predicate Trimmed(s: string) { s == [] || (!IsSpace(s[0]) && !IsSpace(s[|s| - 1])) }

  lemma TrimMeaning(s: string)
    ensures Trimmed(Trim(s)) && |Trim(s)| <= |s| && (Trim(s) == s <==> Trimmed(s)) && Trim(Trim(s)) == Trim(s)
  {
  }

  predicate Spaces(s: string) { forall i :: 0 <= i < |s| ==> IsSpace(s[i]) }

  lemma {:induction false} TrimStartParts(s: string) returns (before: string)
    ensures Spaces(before) && s == before + TrimStart(s)
  {
    before := "";
    if s != [] && IsSpace(s[0]) {
      before := TrimStartParts(s[1..]);
      before := [s[0]] + before;
    }
  }

  lemma {:induction false} TrimEndParts(s: string) returns (after: string)
    ensures Spaces(after) && s == TrimEnd(s) + after
  {
    after := "";
    if s != [] && IsSpace(s[|s| - 1]) {
      after := TrimEndParts(s[..|s| - 1]);
      after := after + [s[|s| - 1]];
    }
  }

  /** Trimming removes white space at the ends, all of it, and nothing else. */
  lemma TrimParts(s: string) returns (before: string, after: string)
    ensures Spaces(before) && Spaces(after) && s == before + Trim(s) + after && Trimmed(Trim(s))
  {
    before := TrimStartParts(s);
    after := TrimEndParts(TrimStart(s));
    TrimMeaning(s);
  }

  // ----- the endpoint of the model list -----

  /** The path of a URL, or nothing if it cannot be parsed. */
  type UrlPath = string -> Option<string>

  function SlashAt(s: string): (n: nat)
    ensures n <= |s| && (n < |s| ==> s[n] == '/') && forall i :: 0 <= i < n ==> s[i] != '/'
  {
    if s == [] || s[0] == '/' then 0 else 1 + SlashAt(s[1..])
  }

  /** The parts of a path between slashes, without the empty ones. */
  function Segments(path: string): seq<string>
    decreases |path|
  {
    if path == [] then []
    else
      var n := SlashAt(path);
      (if n == 0 then [] else [path[..n]]) + Segments(if n == |path| then [] else path[n + 1..])
  }

  predicate Repeats(path: string, segments: seq<string>) {
    segments != [] && "/" + segments[0] + "/" <= path
  }

  function WithoutSegments(path: string, segments: seq<string>): (r: string)
    ensures |r| <= |path| && (|r| == |path| ==> r == path)
    ensures r != path ==> r != [] && r[0] == '/'
  {
    if Repeats(path, segments) then
      assert path[|segments[0]| + 1] == '/';
      WithoutSegments(path[|segments[0]| + 1..], segments[1..])
    else path
  }

  predicate IsRelative(endpoint: string) { "/" <= endpoint && !("//" <= endpoint) }

  function BaseSegments(baseUrl: string, urlPath: UrlPath): seq<string> {
    var path := urlPath(Trim(baseUrl));
    if path.None? then [] else Segments(path.value)
  }

  function Endpoint(endpoint: string, baseUrl: string, urlPath: UrlPath): string {
    if IsRelative(Trim(endpoint)) then WithoutSegments(Trim(endpoint), BaseSegments(baseUrl, urlPath))
    else Trim(endpoint)
  }

  // ----- settings -----

  datatype WireApi = Responses | Chat | Auto

  datatype Balance = Balance(endpoint: string, valuePath: string, currencyPath: string, text: string)

  datatype CustomModel = CustomModel(
    id: string,
    contextWindow: Option<int>,
    maxContextWindow: Option<int>,
    inputModalities: seq<string>,
    defaultReasoningLevel: Option<string>,
    supportedReasoningLevels: seq<string>)

  datatype ProviderConfig = ProviderConfig(
    name: string,
    baseUrl: string,
    apiKey: string,
    envKey: string,
    wireApi: WireApi,
    modelsEndpoint: string,
    balance: Balance,
    customModels: seq<CustomModel>)

  const DEFAULT_MODALITIES := ["text", "image"]

  predicate IsModality(s: string) { s == "text" || s == "image" || s == "audio" }

  function Modalities(names: seq<string>): (r: seq<string>)
    ensures forall i :: 0 <= i < |r| ==> IsModality(r[i])
  {
    if names == [] then []
    else (if IsModality(names[0]) then [names[0]] else []) + Modalities(names[1..])
  }

  // ----- reading -----

  function Text(j: Json): string { if j.Str? then j.s else "" }

  function PositiveInteger(j: Json): Option<int> { if j.Num? && j.n > 0 then Some(j.n) else None }

  /** The strings of a list, others passed over. */
  function Texts(items: seq<Json>): seq<string> {
    if items == [] then [] else (if items[0].Str? then [items[0].s] else []) + Texts(items[1..])
  }

  function NonEmptyTrimmed(names: seq<string>): seq<string> {
    if names == [] then [] else (if Trim(names[0]) != "" then [Trim(names[0])] else []) + NonEmptyTrimmed(names[1..])
  }

  function ReadModalities(j: Json): seq<string> {
    var names := if j.List? then Modalities(Texts(j.items)) else [];
    if names == [] then DEFAULT_MODALITIES else Keyed.FirstSeen(names)
  }

  function ReadLevels(j: Json): seq<string> {
    if j.List? then Keyed.FirstSeen(NonEmptyTrimmed(Texts(j.items))) else []
  }

  function ReadLevel(j: Json): Option<string> {
    if j.Str? && Trim(j.s) != "" then Some(Trim(j.s)) else None
  }

  function PlainModel(id: string): CustomModel { CustomModel(id, None, None, DEFAULT_MODALITIES, None, []) }

  function ReadModel(j: Json): Option<CustomModel> {
    if j.Str? then (if Trim(j.s) != "" then Some(PlainModel(Trim(j.s))) else None)
    else
      var id := Trim(Text(Get(j, "id")));
      if id == "" then None
      else Some(CustomModel(id, PositiveInteger(Get(j, "context_window")),
                            PositiveInteger(Get(j, "max_context_window")),
                            ReadModalities(Get(j, "input_modalities")), ReadLevel(Get(j, "default_reasoning_level")),
                            ReadLevels(Get(j, "supported_reasoning_levels"))))
  }

  function ReadModels(items: seq<Json>): seq<CustomModel> {
    if items == [] then []
    else
      var model := ReadModel(items[0]);
      (if model.Some? then [model.value] else []) + ReadModels(items[1..])
  }

  function ReadBalance(j: Json): Balance {
    Balance(Text(Get(j, "endpoint")), Text(Get(j, "value_path")), Text(Get(j, "currency_path")), Text(Get(j, "label")))
  }

  function ReadWireApi(j: Json): WireApi {
    if j == Str("chat") then Chat else if j == Str("auto") then Auto else Responses
  }

  /** Only the two names are read as their kind; a missing or unknown one means responses. */
  lemma WireApiRead(j: Json)
    ensures ReadWireApi(j).Chat? <==> j == Str("chat")
    ensures ReadWireApi(j).Auto? <==> j == Str("auto")
    ensures ReadWireApi(Get(Object(map[]), "wire_api")) == Responses
  {
    assert "chat"[0] != "auto"[0];
  }

  function ReadConfig(raw: Json, urlPath: UrlPath): ProviderConfig {
    var baseUrl := Text(Get(raw, "base_url"));
    var models := Get(raw, "custom_models");
    ProviderConfig(Text(Get(raw, "name")), baseUrl, Text(Get(raw, "experimental_bearer_token")),
                   Text(Get(raw, "env_key")),
                   ReadWireApi(Get(raw, "wire_api")), Endpoint(Text(Get(raw, "models_endpoint")), baseUrl, urlPath),
                   ReadBalance(Get(raw, "balance")), if models.List? then ReadModels(models.items) else [])
  }

  // ----- writing -----

  function Put(m: map<string, Json>, present: bool, key: string, value: Json): map<string, Json> {
    if present then m[key := value] else m
  }

  function OptionalNum(n: Option<int>): Json { if n.Some? then Num(n.value) else Null }

  /** The default modalities in any order. */
  predicate UsesDefaults(modalities: seq<string>) {
    |modalities| == |DEFAULT_MODALITIES| && "text" in modalities && "image" in modalities
  }

  predicate IsPlain(m: CustomModel) {
    && m.contextWindow.None? && m.maxContextWindow.None? && UsesDefaults(Modalities(m.inputModalities))
    && m.supportedReasoningLevels == [] && m.defaultReasoningLevel.None?
  }

  function WriteModel(m: CustomModel): Json {
    if IsPlain(m) then Str(Trim(m.id))
    else
      var modalities := Modalities(m.inputModalities);
      var levels := m.supportedReasoningLevels != [];
      var a := map["id" := Str(Trim(m.id)),
                   "input_modalities" := List(Strings(if modalities != [] then modalities else DEFAULT_MODALITIES))];
      var b := Put(a, m.contextWindow.Some?, "context_window", OptionalNum(m.contextWindow));
      var c := Put(b, m.maxContextWindow.Some?, "max_context_window", OptionalNum(m.maxContextWindow));
      var d := Put(c, levels, "supported_reasoning_levels", List(Strings(m.supportedReasoningLevels)));
      Object(Put(d, levels && m.defaultReasoningLevel.Some?, "default_reasoning_level",
                 if m.defaultReasoningLevel.Some? then Str(m.defaultReasoningLevel.value) else Null))
  }

  function WriteModels(models: seq<CustomModel>): seq<Json> {
    if models == [] then []
    else (if Trim(models[0].id) != "" then [WriteModel(models[0])] else []) + WriteModels(models[1..])
  }

  function WriteBalance(b: Balance): Json {
    var m := map["endpoint" := Str(Trim(b.endpoint)), "value_path" := Str(Trim(b.valuePath))];
    Object(Put(Put(m, Trim(b.currencyPath) != "", "currency_path", Str(Trim(b.currencyPath))),
               Trim(b.text) != "", "label", Str(Trim(b.text))))
  }

  function WriteWireApi(w: WireApi): Json {
    Str(match w case Responses => "responses" case Chat => "chat" case Auto => "auto")
  }

  function WriteConfig(c: ProviderConfig, urlPath: UrlPath): Json {
    var a := map["name" := Str(Trim(c.name)), "base_url" := Str(Trim(c.baseUrl)),
                 "wire_api" := WriteWireApi(c.wireApi)];
    var b := Put(a, Trim(c.apiKey) != "", "experimental_bearer_token", Str(Trim(c.apiKey)));
    var d := Put(b, Trim(c.envKey) != "", "env_key", Str(Trim(c.envKey)));
    var e := Put(d, Trim(c.modelsEndpoint) != "", "models_endpoint",
                 Str(Endpoint(c.modelsEndpoint, c.baseUrl, urlPath)));
    var f := Put(e, Trim(c.balance.endpoint) != "" && Trim(c.balance.valuePath) != "", "balance",
                 WriteBalance(c.balance));
    Object(Put(f, WriteModels(c.customModels) != [], "custom_models", List(WriteModels(c.customModels))))
  }
}
