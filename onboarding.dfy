/**
 * The list logic of first-run setup (src/onboarding.rs): reading model ids
 * out of a provider's model-list reply, choosing between the live list,
 * the cached list and the built-in one, building the model picker's items,
 * the provider picker's index mapping, the key choice, and the freshness
 * rule of the model cache. Prompts, HTTP and files are replaced by their
 * answers, passed in as parameters.
 */
module Onboarding {
  import opened Wrappers
  import opened Text
  import opened Errors
  import opened Types
  import opened ConfigEnv
  import opened StrOrder
  import opened Providers

  // ---------------------------------------------------------------------
  // extract_model_ids

  /** A JSON value as `serde_json::Value` holds it (numbers as integers). */
  datatype Json =
    | Null
    | Bool(b: bool)
    | Num(n: int)
    | Str(s: string)
    | Arr(items: seq<Json>)
    | Obj(fields: map<string, Json>)

  /** `value.get(key)`: a member of an object, None for anything else. */
  function Get(value: Json, key: string): (r: Option<Json>)
    ensures r.Some? <==> value.Obj? && key in value.fields
  {
    if value.Obj? && key in value.fields then Some(value.fields[key]) else None
  }

  /** `item.get("id").and_then(|v| v.as_str())` */
  function IdOf(item: Json): Option<string> {
    match Get(item, "id")
    case Some(Str(s)) => Some(s)
    case _ => None
  }

  /** The string ids of `items`, in order, skipping items without one. */
  function Ids(items: seq<Json>): seq<string>
    decreases |items|
  {
    if items == [] then []
    else
      var last := items[|items| - 1];
      Ids(items[..|items| - 1]) + (if IdOf(last).Some? then [IdOf(last).value] else [])
  }

  /** What `extract_model_ids` returns: the ids of the `data` array when the
      reply has one, else those of the reply itself when it is an array,
      else nothing. */
  function ModelIds(value: Json): seq<string> {
    match Get(value, "data")
    case Some(Arr(items)) => Ids(items)
    case _ => if value.Arr? then Ids(value.items) else []
  }

  /** One of the two `for item in array` loops of `extract_model_ids`. */
  method CollectIds(items: seq<Json>) returns (out: seq<string>)
    ensures out == Ids(items)
  {
    out := [];
    for i := 0 to |items|
      invariant out == Ids(items[..i])
    {
      var id := IdOf(items[i]);
      if id.Some? {
        out := out + [id.value];
      }
      assert items[..i + 1][..i] == items[..i];
    }
    assert items[..|items|] == items;
  }

  /** `extract_model_ids` */
  method ExtractModelIds(value: Json) returns (out: seq<string>)
    ensures out == ModelIds(value)
  {
    var data := Get(value, "data");
    if data.Some? && data.value.Arr? {
      out := CollectIds(data.value.items);
      return;
    }
    out := [];
    if value.Arr? {
      out := CollectIds(value.items);
    }
  }

  /** Ids are collected item by item: those of a concatenation are those of
      each part, in order. */
  lemma {:induction false} IdsAppend(a: seq<Json>, b: seq<Json>)
    ensures Ids(a + b) == Ids(a) + Ids(b)
    decreases |b|
  {
    if b == [] {
      assert a + b == a;
    } else {
      var c := a + b;
      var last := b[|b| - 1];
      assert c[..|c| - 1] == a + b[..|b| - 1];
      assert c[|c| - 1] == last;
      IdsAppend(a, b[..|b| - 1]);
    }
  }

  /** Each collected id is the id of some item. */
  lemma {:induction false} IdsAreIds(items: seq<Json>)
    ensures forall s :: s in Ids(items) ==> exists i :: 0 <= i < |items| && IdOf(items[i]) == Some(s)
    decreases |items|
  {
    if items != [] {
      var init := items[..|items| - 1];
      IdsAreIds(init);
      forall s | s in Ids(items)
        ensures exists i :: 0 <= i < |items| && IdOf(items[i]) == Some(s)
      {
        if s in Ids(init) {
          var i :| 0 <= i < |init| && IdOf(init[i]) == Some(s);
          assert items[i] == init[i];
        } else {
          assert IdOf(items[|items| - 1]) == Some(s);
        }
      }
    }
  }

  /** When every item has an id, the ids are exactly the items' ids, one
      for one and in order. */
  lemma {:induction false} IdsOneForOne(items: seq<Json>)
    requires forall i :: 0 <= i < |items| ==> IdOf(items[i]).Some?
    ensures |Ids(items)| == |items|
    ensures forall i :: 0 <= i < |items| ==> Ids(items)[i] == IdOf(items[i]).value
    decreases |items|
  {
    if items != [] {
      var init := items[..|items| - 1];
      assert forall i :: 0 <= i < |init| ==> init[i] == items[i];
      IdsOneForOne(init);
    }
  }

  /** A reply that is neither an object with a `data` array nor an array
      yields no ids. */
  lemma OtherRepliesYieldNothing(value: Json)
    requires !value.Arr? && (Get(value, "data").None? || !Get(value, "data").value.Arr?)
    ensures ModelIds(value) == []
  {
  }

  /** The reply shapes of the two model-list APIs: `{"data": [...]}` and a
      bare array of objects with an `id`. */
  lemma ReplyShapes(a: string, b: string)
    ensures ModelIds(Obj(map["data" := Arr([Obj(map["id" := Str(a)]), Obj(map["name" := Str(b)])])])) == [a]
    ensures ModelIds(Arr([Obj(map["id" := Str(a)]), Null, Obj(map["id" := Str(b)])])) == [a, b]
  {
    var one := [Obj(map["id" := Str(a)]), Obj(map["name" := Str(b)])];
    assert IdOf(one[1]).None?;
    assert one[..1][..0] == [];
    assert Ids(one[..1]) == [a];
    var two := [Obj(map["id" := Str(a)]), Null, Obj(map["id" := Str(b)])];
    assert two[..2][..1] == two[..1] && two[..1][..0] == [];
    assert Ids(two[..1]) == [a];
    assert Ids(two[..2]) == [a];
  }

  // ---------------------------------------------------------------------
  // The model cache

  /** `ModelCache`: when the list was fetched, in seconds since the epoch,
      and the list. */
  datatype ModelCache = ModelCache(fetchedAtEpoch: nat, models: seq<string>)

  /** How long a cached list is used: one day. */
  const CACHE_MAX_AGE_SECS := 86_400

  /** `u64::saturating_sub` on non-negative values. */
  function SaturatingSub(a: nat, b: nat): (r: nat)
    ensures a >= b ==> r == a - b
    ensures a < b ==> r == 0
  {
    if a >= b then a - b else 0
  }

  /** `load_models_cache`, given what the cache file held (None when it is
      missing or does not parse) and the clock (None when it is before the
      epoch). */
  function LoadModelsCache(cache: Option<ModelCache>, now: Option<nat>): Option<seq<string>> {
    if cache.None? || now.None? then None
    else if SaturatingSub(now.value, cache.value.fetchedAtEpoch) > CACHE_MAX_AGE_SECS then None
    else if cache.value.models == [] then None
    else Some(cache.value.models)
  }

  /** A cached list is used exactly when it is at most a day old (a list
      stamped in the future counts as fresh) and not empty, and then it is
      used as it is. */
  lemma CacheFreshIff(cache: Option<ModelCache>, now: Option<nat>)
    ensures LoadModelsCache(cache, now).Some? <==>
      cache.Some? && now.Some? && now.value <= cache.value.fetchedAtEpoch + CACHE_MAX_AGE_SECS
      && cache.value.models != []
    ensures LoadModelsCache(cache, now).Some? ==> LoadModelsCache(cache, now).value == cache.value.models
  {
  }

  // ---------------------------------------------------------------------
  // resolve_model_candidates

  /** `model_candidates`: the built-in lists. */
  function ModelCandidates(p: Provider): (r: seq<string>)
    ensures |r| >= 3
  {
    match p
    case Openai => ["openai-codex/gpt-5.3-codex", "openai-codex/gpt-5.1-codex", "gpt-5-mini-2025-08-07",
                    "gpt-5", "gpt-5-mini", "gpt-5-nano", "gpt-4o", "gpt-4o-mini"]
    case Anthropic => ["claude-3-7-sonnet-latest", "claude-3-5-sonnet-latest", "claude-3-5-haiku-latest"]
    case Openrouter => ["openai-codex/gpt-5.3-codex", "openai-codex/gpt-5.1-codex", "openai/gpt-5-mini-2025-08-07",
                        "openai/gpt-5", "openai/gpt-5-nano", "openai/gpt-4o-mini", "anthropic/claude-3.5-sonnet",
                        "google/gemini-2.5-flash"]
    case Vercel => ["openai-codex/gpt-5.3-codex", "openai-codex/gpt-5.1-codex", "openai/gpt-5-mini-2025-08-07",
                    "openai/gpt-5", "openai/gpt-5-nano", "openai/gpt-4o-mini", "anthropic/claude-3-5-sonnet-latest"]
  }

  /** The model-list endpoint `fetch_live_models` calls: the base URL
      without trailing '/', then `/v1/models` for Anthropic and `/models`
      for the others. */
  function ModelsUrl(p: Provider, baseUrl: string): string {
    Endpoint(baseUrl, if p == Anthropic then "/v1/models" else "/models")
  }

  lemma ModelsUrlShape(p: Provider, baseUrl: string)
    ensures var url := ModelsUrl(p, baseUrl);
      && EndsWith(url, if p == Anthropic then "/v1/models" else "/models")
      && url == TrimEndBy(baseUrl, IsSlash) + (if p == Anthropic then "/v1/models" else "/models")
    ensures ModelsUrl(p, baseUrl + "/") == ModelsUrl(p, baseUrl)
  {
    EndpointIgnoresTrailingSlash(baseUrl, if p == Anthropic then "/v1/models" else "/models");
  }

  /** `resolve_model_candidates`, given the outcome of the live fetch and
      what the cache holds: a non-empty live list sorted and deduplicated,
      else the cached list, else the built-in one. */
  function ResolveModelCandidates(p: Provider, live: Result<seq<string>, AppError>,
                                  cache: Option<ModelCache>, now: Option<nat>): seq<string>
  {
    if live.Success? && live.value != [] then SortDedup(live.value)
    else match LoadModelsCache(cache, now)
      case Some(cached) => cached
      case None => ModelCandidates(p)
  }

  /** The candidates are never empty; a live list comes back strictly
      increasing with the same models, and a failed or empty fetch falls
      back to the cache and then to the built-in list. */
  lemma CandidatesFallback(p: Provider, live: Result<seq<string>, AppError>, cache: Option<ModelCache>, now: Option<nat>)
    ensures var r := ResolveModelCandidates(p, live, cache, now);
      && r != []
      && (live.Success? && live.value != [] ==>
            StrictlyIncreasing(r) && forall m :: m in r <==> m in live.value)
      && (!(live.Success? && live.value != []) && LoadModelsCache(cache, now).Some? ==>
            r == LoadModelsCache(cache, now).value)
      && (!(live.Success? && live.value != []) && LoadModelsCache(cache, now).None? ==>
            r == ModelCandidates(p))
  {
    if live.Success? && live.value != [] {
      assert live.value[0] in SortDedup(live.value);
    }
  }

  // ---------------------------------------------------------------------
  // select_model

  const CUSTOM_MODEL := "Custom model id..."

  /** The model picker's items and the index it starts on. */
  datatype ModelMenu = ModelMenu(items: seq<string>, defaultIdx: nat)

  /** The items `select_model` offers: the candidates, with the default
      model put first when it is not among them, then the custom entry;
      the picker starts on the first occurrence of the default. */
  method SelectModelItems(candidates: seq<string>, existingModel: Option<string>, p: Provider) returns (menu: ModelMenu)
    ensures var d := existingModel.GetOr(DefaultModel(p));
      && menu.items == (if d in candidates then candidates else [d] + candidates) + [CUSTOM_MODEL]
      && menu.defaultIdx < |menu.items| - 1
      && menu.items[menu.defaultIdx] == d
      && d !in menu.items[..menu.defaultIdx]
  {
    var defaultModel := existingModel.GetOr(DefaultModel(p));
    var items := candidates;
    if defaultModel !in items {
      items := [defaultModel] + items;
    }
    ghost var listed := items;
    items := items + [CUSTOM_MODEL];
    var idx := 0;
    while idx < |items| && items[idx] != defaultModel
      invariant 0 <= idx <= |listed|
      invariant defaultModel !in items[..idx]
      invariant defaultModel in listed[idx..]
    {
      assert items[..idx + 1] == items[..idx] + [items[idx]];
      assert listed[idx..] == [listed[idx]] + listed[idx + 1..];
      idx := idx + 1;
    }
    menu := ModelMenu(items, idx);
  }

  /** The custom-id prompt: the first answer that is not blank, trimmed.
      None when the answers run out, standing for the prompt failing. */
  method ReadCustomModel(answers: seq<string>) returns (r: Option<string>)
    ensures r.None? <==> AllBlank(answers)
    ensures r.Some? ==> exists i: nat :: FirstAnswerAt(answers, i) && r.value == Trim(answers[i])
    ensures r.Some? ==> r.value != [] && Trim(r.value) == r.value
  {
    var i := 0;
    while i < |answers|
      invariant 0 <= i <= |answers|
      invariant AllBlank(answers[..i])
    {
      if !IsBlank(answers[i]) {
        TrimmedAnswer(answers[i]);
        assert FirstAnswerAt(answers, i);
        return Some(Trim(answers[i]));
      }
      assert answers[..i + 1] == answers[..i] + [answers[i]];
      i := i + 1;
    }
    assert answers[..i] == answers;
    return None;
  }

  /** Every answer is blank. */
  predicate AllBlank(answers: seq<string>) {
    forall i :: 0 <= i < |answers| ==> IsBlank(answers[i])
  }

  /** `answers[i]` is the first answer that is not blank. */
  predicate FirstAnswerAt(answers: seq<string>, i: nat) {
    i < |answers| && !IsBlank(answers[i]) && AllBlank(answers[..i])
  }

  /** A non-blank answer trims to a non-empty text that trimming keeps. */
  lemma TrimmedAnswer(s: string)
    requires !IsBlank(s)
    ensures Trim(s) != [] && Trim(Trim(s)) == Trim(s)
  {
    TrimShape(s);
    TrimIdempotent(s);
  }

  /** `select_model` after the picker returned `idx`: the picked item, or
      the custom id (trimmed, never empty) when the custom entry was picked. */
  method SelectModel(menu: ModelMenu, idx: nat, answers: seq<string>) returns (r: Option<string>)
    requires idx < |menu.items|
    ensures menu.items[idx] != CUSTOM_MODEL ==> r == Some(menu.items[idx])
    ensures menu.items[idx] == CUSTOM_MODEL ==>
      (r.None? <==> AllBlank(answers))
      && (r.Some? ==> r.value != [] && exists i: nat :: FirstAnswerAt(answers, i) && r.value == Trim(answers[i]))
  {
    if menu.items[idx] == CUSTOM_MODEL {
      r := ReadCustomModel(answers);
      return;
    }
    return Some(menu.items[idx]);
  }

  // ---------------------------------------------------------------------
  // select_provider

  const INVALID_PROVIDER_SELECTION := "invalid provider selection"

  /** The provider the picker starts on: the one already configured, else
      the first with a key in the environment, else OpenAI. */
  function SuggestedProvider(existing: Option<Provider>, detected: seq<DetectedKey>): Provider {
    existing.Or(if detected == [] then None else Some(detected[0].provider)).GetOr(Openai)
  }

  /** The provider at a picker index. */
  function ProviderAt(idx: nat): (r: Result<Provider, AppError>)
    ensures r.Failure? <==> idx >= |SETUP_ORDER|
    ensures r.Success? ==> r.value == SETUP_ORDER[idx]
  {
    match idx
    case 0 => Success(Openai)
    case 1 => Success(Anthropic)
    case 2 => Success(Openrouter)
    case 3 => Success(Vercel)
    case _ => Failure(Message(INVALID_PROVIDER_SELECTION))
  }

  /** The picker's starting index and the index-to-provider mapping are
      inverse to each other over 0..3. */
  lemma ProviderIndexInverse(p: Provider, idx: nat)
    ensures ProviderAt(Rank(p)) == Success(p)
    ensures ProviderAt(idx).Success? ==> Rank(ProviderAt(idx).value) == idx
  {
  }

  /** `select_provider`, given the index picked. */
  function SelectProvider(existing: Option<Provider>, detected: seq<DetectedKey>, picked: nat): (r: Result<Provider, AppError>)
    ensures picked == Rank(SuggestedProvider(existing, detected)) ==> r == Success(SuggestedProvider(existing, detected))
    ensures picked < |SETUP_ORDER| ==> r == Success(SETUP_ORDER[picked])
    ensures picked >= |SETUP_ORDER| ==> r == Failure(Message(INVALID_PROVIDER_SELECTION))
  {
    ProviderIndexInverse(SuggestedProvider(existing, detected), picked);
    ProviderAt(picked)
  }

  // ---------------------------------------------------------------------
  // select_api_key

  /** The key of the first detected entry for `p`: what
      `detected.iter().find(|(q, _)| *q == p)` yields. */
  function DetectedKeyFor(detected: seq<DetectedKey>, p: Provider): (r: Option<string>)
    ensures r.None? <==> forall k :: k in detected ==> k.provider != p
    ensures r.Some? ==> exists i ::
      0 <= i < |detected| && detected[i] == DetectedKey(p, r.value) &&
      forall j :: 0 <= j < i ==> detected[j].provider != p
    decreases |detected|
  {
    if detected == [] then None
    else if detected[0].provider == p then Some(detected[0].key)
    else
      var r := DetectedKeyFor(detected[1..], p);
      if r.Some? then FirstAfterOthers(detected, p, r.value); r else r
  }

  /** An entry preceded in `detected[1..]` only by other providers' entries
      is preceded in `detected` only by them when `detected[0]` is another's. */
  lemma FirstAfterOthers(detected: seq<DetectedKey>, p: Provider, key: string)
    requires detected != [] && detected[0].provider != p
    requires exists k ::
      0 <= k < |detected[1..]| && detected[1..][k] == DetectedKey(p, key) &&
      forall j :: 0 <= j < k ==> detected[1..][j].provider != p
    ensures exists i ::
      0 <= i < |detected| && detected[i] == DetectedKey(p, key) &&
      forall j :: 0 <= j < i ==> detected[j].provider != p
  {
    var k :| 0 <= k < |detected[1..]| && detected[1..][k] == DetectedKey(p, key) &&
      forall j :: 0 <= j < k ==> detected[1..][j].provider != p;
    forall j | 1 <= j < k + 1
      ensures detected[j].provider != p
    {
      assert detected[j] == detected[1..][j - 1];
    }
    assert detected[k + 1] == DetectedKey(p, key);
  }

  /** Entries for other providers before index `i` are skipped over. */
  lemma {:induction false} DetectedKeyFrom(detected: seq<DetectedKey>, p: Provider, i: nat)
    requires i <= |detected|
    requires forall j :: 0 <= j < i ==> detected[j].provider != p
    ensures DetectedKeyFor(detected, p) == DetectedKeyFor(detected[i..], p)
    decreases i
  {
    if i > 0 {
      DetectedKeyFrom(detected[1..], p, i - 1);
      assert detected[1..][i - 1..] == detected[i..];
    }
  }

  /** The key `select_api_key` returns: the detected key for the provider
      when it is confirmed, else the saved key when it is confirmed, else
      the first typed key that is not blank, as typed; None when the typed
      keys run out. */
  function ApiKeyChoice(p: Provider, detected: seq<DetectedKey>, savedKey: Option<string>,
                        useDetected: bool, useSaved: bool, typed: seq<string>): Option<string>
  {
    var found := DetectedKeyFor(detected, p);
    if found.Some? && useDetected then found
    else if savedKey.Some? && useSaved then savedKey
    else FirstNonBlank(typed)
  }

  /** The chosen key comes from one of the three sources, a typed one is
      never blank, and a confirmed detected key always ends the choice. */
  lemma ApiKeyChoiceSources(p: Provider, detected: seq<DetectedKey>, savedKey: Option<string>,
                            useDetected: bool, useSaved: bool, typed: seq<string>)
    ensures var r := ApiKeyChoice(p, detected, savedKey, useDetected, useSaved, typed);
      && ((exists k :: k in detected && k.provider == p) && useDetected ==> r.Some?)
      && (r.Some? ==> DetectedKey(p, r.value) in detected
                      || savedKey == Some(r.value)
                      || (r.value in typed && !IsBlank(r.value)))
      && ((forall k :: k in detected ==> k.provider != p) && savedKey.None? ==>
            (r.Some? <==> exists i :: 0 <= i < |typed| && !IsBlank(typed[i])))
  {
  }

  /** `select_api_key`, given the answers to its two confirmations and the
      keys typed at the password prompt. */
  method SelectApiKey(p: Provider, detected: seq<DetectedKey>, savedKey: Option<string>,
                      useDetected: bool, useSaved: bool, typed: seq<string>) returns (r: Option<string>)
    ensures r == ApiKeyChoice(p, detected, savedKey, useDetected, useSaved, typed)
  {
    var i := 0;
    while i < |detected| && detected[i].provider != p
      invariant 0 <= i <= |detected|
      invariant forall j :: 0 <= j < i ==> detected[j].provider != p
    {
      i := i + 1;
    }
    DetectedKeyFrom(detected, p, i);
    if i < |detected| && useDetected {
      return Some(detected[i].key);
    }
    if savedKey.Some? && useSaved {
      return savedKey;
    }
    r := ReadTypedKey(typed);
  }

  /** The password prompt's loop: the first typed key that is not blank,
      as typed; None when the typed keys run out. */
  method ReadTypedKey(typed: seq<string>) returns (r: Option<string>)
    ensures r == FirstNonBlank(typed)
  {
    var n := 0;
    while n < |typed|
      invariant 0 <= n <= |typed|
      invariant forall j :: 0 <= j < n ==> IsBlank(typed[j])
    {
      if !IsBlank(typed[n]) {
        FirstNonBlankFrom(typed, n);
        return Some(typed[n]);
      }
      n := n + 1;
    }
    FirstNonBlankFrom(typed, n);
    return None;
  }
}
