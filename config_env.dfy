/**
 * The environment side of src/config.rs: which variables each provider
 * reads, in which order, and the scan for API keys that first-run setup
 * offers. The environment is a map from variable names to values; an absent
 * name is an unset variable.
 */
module ConfigEnv {
  import opened Wrappers
  import opened Text
  import opened Types

  type Env = map<string, string>

  /** `env::var(name).ok()` */
  function Var(env: Env, name: string): (r: Option<string>)
    ensures r.Some? <==> name in env
    ensures r.Some? ==> r.value == env[name]
  {
    if name in env then Some(env[name]) else None
  }

  // ---------------------------------------------------------------------
  // Environment lookups

  /** `provider_from_env`: `BAISHIFY_PROVIDER`, when it names a provider. */
  function ProviderFromEnv(env: Env): Option<Provider> {
    match Var(env, "BAISHIFY_PROVIDER")
    case None => None
    case Some(v) => Parse(v)
  }

  /** The provider-specific model variable. */
  function ModelVar(p: Provider): string {
    match p
    case Openai => "OPENAI_MODEL"
    case Anthropic => "ANTHROPIC_MODEL"
    case Openrouter => "OPENROUTER_MODEL"
    case Vercel => "VERCEL_AI_GATEWAY_MODEL"
  }

  /** The provider-specific base-URL variables, in the order consulted. */
  function BaseUrlVars(p: Provider): seq<string> {
    match p
    case Openai => ["OPENAI_BASE_URL"]
    case Anthropic => ["ANTHROPIC_BASE_URL"]
    case Openrouter => ["OPENROUTER_BASE_URL"]
    case Vercel => ["VERCEL_AI_GATEWAY_BASE_URL", "AI_GATEWAY_BASE_URL"]
  }

  /** The API-key variables, in the order consulted. */
  function ApiKeyVars(p: Provider): seq<string> {
    match p
    case Openai => ["OPENAI_API_KEY"]
    case Anthropic => ["ANTHROPIC_API_KEY"]
    case Openrouter => ["OPENROUTER_API_KEY"]
    case Vercel => ["VERCEL_AI_GATEWAY_API_KEY", "AI_GATEWAY_API_KEY"]
  }

  /** The first of `names` that is set. */
  function FirstSet(env: Env, names: seq<string>): (r: Option<string>)
    ensures r.Some? <==> exists i :: 0 <= i < |names| && names[i] in env
    ensures r.Some? ==> exists i :: (0 <= i < |names| && names[i] in env && r.value == env[names[i]]
      && forall j :: 0 <= j < i ==> names[j] !in env)
    decreases |names|
  {
    if names == [] then None
    else if names[0] in env then Some(env[names[0]])
    else
      var r := FirstSet(env, names[1..]);
      assert forall i :: 1 <= i < |names| ==> names[i] == names[1..][i - 1];
      r
  }

  /** `env_model_for`: `BAISHIFY_MODEL`, else the provider's own variable. */
  function EnvModelFor(env: Env, p: Provider): Option<string> {
    Var(env, "BAISHIFY_MODEL").Or(Var(env, ModelVar(p)))
  }

  /** `env_api_key_for`: the provider's own variables only. */
  function EnvApiKeyFor(env: Env, p: Provider): Option<string> {
    FirstSet(env, ApiKeyVars(p))
  }

  /** `env_base_url_for`: `BAISHIFY_BASE_URL`, else the provider's own variables. */
  function EnvBaseUrlFor(env: Env, p: Provider): Option<string> {
    Var(env, "BAISHIFY_BASE_URL").Or(FirstSet(env, BaseUrlVars(p)))
  }

  /** Two environments that agree on `names`. */
  predicate AgreeOn(e1: Env, e2: Env, names: seq<string>) {
    forall i :: 0 <= i < |names| ==> Var(e1, names[i]) == Var(e2, names[i])
  }

  lemma {:induction false} FirstSetFrame(e1: Env, e2: Env, names: seq<string>)
    requires AgreeOn(e1, e2, names)
    ensures FirstSet(e1, names) == FirstSet(e2, names)
    decreases |names|
  {
    if names != [] {
      assert Var(e1, names[0]) == Var(e2, names[0]);
      assert AgreeOn(e1, e2, names[1..]) by {
        forall i | 0 <= i < |names[1..]|
          ensures Var(e1, names[1..][i]) == Var(e2, names[1..][i])
        {
          assert names[1..][i] == names[i + 1];
        }
      }
      FirstSetFrame(e1, e2, names[1..]);
    }
  }

  /** The lookups are scoped to the resolved provider: they depend on the
      generic variable and the provider's own variables and on nothing
      else, so another provider's variables never leak in. */
  lemma EnvLookupsAreScoped(e1: Env, e2: Env, p: Provider)
    requires Var(e1, "BAISHIFY_MODEL") == Var(e2, "BAISHIFY_MODEL")
    requires Var(e1, ModelVar(p)) == Var(e2, ModelVar(p))
    requires Var(e1, "BAISHIFY_BASE_URL") == Var(e2, "BAISHIFY_BASE_URL")
    requires AgreeOn(e1, e2, ApiKeyVars(p)) && AgreeOn(e1, e2, BaseUrlVars(p))
    ensures EnvModelFor(e1, p) == EnvModelFor(e2, p)
    ensures EnvApiKeyFor(e1, p) == EnvApiKeyFor(e2, p)
    ensures EnvBaseUrlFor(e1, p) == EnvBaseUrlFor(e2, p)
  {
    FirstSetFrame(e1, e2, ApiKeyVars(p));
    FirstSetFrame(e1, e2, BaseUrlVars(p));
  }

  /** The generic variables win over the provider's own. */
  lemma GenericVariablesWin(env: Env, p: Provider)
    ensures "BAISHIFY_MODEL" in env ==> EnvModelFor(env, p) == Some(env["BAISHIFY_MODEL"])
    ensures "BAISHIFY_BASE_URL" in env ==> EnvBaseUrlFor(env, p) == Some(env["BAISHIFY_BASE_URL"])
    ensures "BAISHIFY_MODEL" !in env ==> EnvModelFor(env, p) == Var(env, ModelVar(p))
  {
  }

  /** The AI Gateway's short variables are consulted only when the long ones
      are unset. */
  lemma GatewayFallback(env: Env)
    ensures "VERCEL_AI_GATEWAY_API_KEY" in env ==> EnvApiKeyFor(env, Vercel) == Some(env["VERCEL_AI_GATEWAY_API_KEY"])
    ensures "VERCEL_AI_GATEWAY_API_KEY" !in env ==> EnvApiKeyFor(env, Vercel) == Var(env, "AI_GATEWAY_API_KEY")
  {
    var names := ApiKeyVars(Vercel);
    if "VERCEL_AI_GATEWAY_API_KEY" !in env {
      assert FirstSet(env, names) == FirstSet(env, names[1..]);
      assert FirstSet(env, names[1..][1..]) == None;
    }
  }

  // ---------------------------------------------------------------------
  // detected_provider_keys

  /** A provider whose API key is present in the environment. */
  datatype DetectedKey = DetectedKey(provider: Provider, key: string)

  /** The order in which setup offers detected keys. */
  function Rank(p: Provider): nat {
    match p
    case Openai => 0
    case Anthropic => 1
    case Openrouter => 2
    case Vercel => 3
  }

  /** Whether `p` has a usable key: the one `env_api_key_for` would read,
      and not blank. */
  predicate HasUsableKey(env: Env, p: Provider) {
    EnvApiKeyFor(env, p).Some? && !IsBlank(EnvApiKeyFor(env, p).value)
  }

  /** The entry for `p` when its key is `key`: none when the key is unset
      or blank. */
  function EntryFor(p: Provider, key: Option<string>): seq<DetectedKey> {
    if key.Some? && !IsBlank(key.value) then [DetectedKey(p, key.value)] else []
  }

  /** The providers in the order setup offers them. */
  const SETUP_ORDER: seq<Provider> := [Openai, Anthropic, Openrouter, Vercel]

  /** The entries for `ps`, in that order, with `keyOf` giving each key:
      those for all but the last provider, then the last one's. */
  function DetectedAmong(keyOf: Provider -> Option<string>, ps: seq<Provider>): seq<DetectedKey>
    decreases |ps|
  {
    if ps == [] then [] else DetectedAmong(keyOf, ps[..|ps| - 1]) + EntryFor(ps[|ps| - 1], keyOf(ps[|ps| - 1]))
  }

  /** The detected keys: for each provider in setup's order, the key
      `env_api_key_for` reads, unless it is unset or blank. */
  function Detected(env: Env): seq<DetectedKey> {
    DetectedAmong(KeyOf(env), SETUP_ORDER)
  }

  /** `env_api_key_for` as a function of the provider. */
  function KeyOf(env: Env): Provider -> Option<string> {
    p => EnvApiKeyFor(env, p)
  }

  /** OpenAI, Anthropic and OpenRouter each read a single key variable. */
  lemma SingleKeyVars(env: Env)
    ensures EnvApiKeyFor(env, Openai) == Var(env, "OPENAI_API_KEY")
    ensures EnvApiKeyFor(env, Anthropic) == Var(env, "ANTHROPIC_API_KEY")
    ensures EnvApiKeyFor(env, Openrouter) == Var(env, "OPENROUTER_API_KEY")
  {
    assert FirstSet(env, ApiKeyVars(Openai)) == Var(env, ApiKeyVars(Openai)[0]);
    assert FirstSet(env, ApiKeyVars(Anthropic)) == Var(env, ApiKeyVars(Anthropic)[0]);
    assert FirstSet(env, ApiKeyVars(Openrouter)) == Var(env, ApiKeyVars(Openrouter)[0]);
  }

  /** `DetectedAmong` for a list of four providers, entry by entry. */
  lemma DetectedFour(keyOf: Provider -> Option<string>, a: Provider, b: Provider, c: Provider, d: Provider)
    ensures DetectedAmong(keyOf, [a, b, c, d])
      == EntryFor(a, keyOf(a)) + EntryFor(b, keyOf(b)) + EntryFor(c, keyOf(c)) + EntryFor(d, keyOf(d))
  {
    var p1 := [] + [a];
    var p2 := p1 + [b];
    var p3 := p2 + [c];
    DetectedLast(keyOf, [], a);
    DetectedLast(keyOf, p1, b);
    DetectedLast(keyOf, p2, c);
    DetectedLast(keyOf, p3, d);
    assert p3 + [d] == [a, b, c, d];
    EmptyThen(EntryFor(a, keyOf(a)));
  }

  /** The empty list is a left unit of concatenation. */
  lemma EmptyThen(x: seq<DetectedKey>)
    ensures [] + x == x
  {
  }

  /** One provider more at the end adds its entry at the end. */
  lemma DetectedLast(keyOf: Provider -> Option<string>, ps: seq<Provider>, p: Provider)
    ensures DetectedAmong(keyOf, ps + [p]) == DetectedAmong(keyOf, ps) + EntryFor(p, keyOf(p))
  {
    assert (ps + [p])[..|ps|] == ps;
  }

  /** `Detected`, provider by provider. */
  lemma DetectedSplit(env: Env)
    ensures Detected(env) == EntryFor(Openai, EnvApiKeyFor(env, Openai)) + EntryFor(Anthropic, EnvApiKeyFor(env, Anthropic))
      + EntryFor(Openrouter, EnvApiKeyFor(env, Openrouter)) + EntryFor(Vercel, EnvApiKeyFor(env, Vercel))
  {
    DetectedFour(KeyOf(env), Openai, Anthropic, Openrouter, Vercel);
  }

  /** One `if let Ok(v) = ... { if !v.trim().is_empty() { out.push((p, v)) } }`
      of `detected_provider_keys`. */
  method PushUsable(out: seq<DetectedKey>, p: Provider, v: Option<string>) returns (r: seq<DetectedKey>)
    ensures r == out + EntryFor(p, v)
  {
    r := out;
    if v.Some? && !IsBlank(v.value) {
      r := out + [DetectedKey(p, v.value)];
    }
  }

  /** `detected_provider_keys`, reading each variable directly. For Vercel a
      set but blank `VERCEL_AI_GATEWAY_API_KEY` hides `AI_GATEWAY_API_KEY`. */
  method DetectedProviderKeys(env: Env) returns (out: seq<DetectedKey>)
    ensures out == Detected(env)
  {
    SingleKeyVars(env);
    GatewayFallback(env);
    out := PushUsable([], Openai, Var(env, "OPENAI_API_KEY"));
    out := PushUsable(out, Anthropic, Var(env, "ANTHROPIC_API_KEY"));
    out := PushUsable(out, Openrouter, Var(env, "OPENROUTER_API_KEY"));
    var gateway := Var(env, "VERCEL_AI_GATEWAY_API_KEY");
    if gateway.Some? {
      out := PushUsable(out, Vercel, gateway);
    } else {
      out := PushUsable(out, Vercel, Var(env, "AI_GATEWAY_API_KEY"));
    }
    DetectedSplit(env);
    assert [] + EntryFor(Openai, EnvApiKeyFor(env, Openai)) == EntryFor(Openai, EnvApiKeyFor(env, Openai));
  }

  /** Every entry for `ps` names a provider of `ps` and carries its key,
      which is not blank. */
  lemma {:induction false} DetectedAmongSound(keyOf: Provider -> Option<string>, ps: seq<Provider>)
    ensures forall k :: k in DetectedAmong(keyOf, ps) ==>
      k.provider in ps && keyOf(k.provider) == Some(k.key) && !IsBlank(k.key)
    decreases |ps|
  {
    if ps != [] {
      var init := ps[..|ps| - 1];
      DetectedAmongSound(keyOf, init);
      forall k | k in DetectedAmong(keyOf, ps)
        ensures k.provider in ps
      {
        if k in DetectedAmong(keyOf, init) {
          var n :| 0 <= n < |init| && init[n] == k.provider;
          assert ps[n] == k.provider;
        }
      }
    }
  }

  /** Every provider of `ps` whose key is set and not blank has its entry. */
  lemma {:induction false} DetectedAmongComplete(keyOf: Provider -> Option<string>, ps: seq<Provider>, p: Provider)
    requires p in ps && keyOf(p).Some? && !IsBlank(keyOf(p).value)
    ensures DetectedKey(p, keyOf(p).value) in DetectedAmong(keyOf, ps)
    decreases |ps|
  {
    var init := ps[..|ps| - 1];
    if ps[|ps| - 1] != p {
      var n :| 0 <= n < |ps| && ps[n] == p;
      assert init[n] == p;
      DetectedAmongComplete(keyOf, init, p);
    }
  }

  /** Each provider comes after those of lower rank. */
  predicate InSetupOrder(d: seq<DetectedKey>) {
    forall i, j :: 0 <= i < j < |d| ==> Rank(d[i].provider) < Rank(d[j].provider)
  }

  /** Entries for providers listed in increasing rank come out in
      increasing rank. */
  lemma {:induction false} DetectedAmongOrdered(keyOf: Provider -> Option<string>, ps: seq<Provider>)
    requires forall i, j :: 0 <= i < j < |ps| ==> Rank(ps[i]) < Rank(ps[j])
    ensures InSetupOrder(DetectedAmong(keyOf, ps))
    decreases |ps|
  {
    if ps != [] {
      var last := ps[|ps| - 1];
      DetectedAmongOrdered(keyOf, ps[..|ps| - 1]);
      EarlierRanksBelow(keyOf, ps);
      OrderedBeforeLast(DetectedAmong(keyOf, ps[..|ps| - 1]), last, EntryFor(last, keyOf(last)));
    }
  }

  /** Entries before the last provider's rank below it. */
  lemma EarlierRanksBelow(keyOf: Provider -> Option<string>, ps: seq<Provider>)
    requires ps != [] && forall i, j :: 0 <= i < j < |ps| ==> Rank(ps[i]) < Rank(ps[j])
    ensures forall k :: k in DetectedAmong(keyOf, ps[..|ps| - 1]) ==> Rank(k.provider) < Rank(ps[|ps| - 1])
  {
    var init := ps[..|ps| - 1];
    DetectedAmongSound(keyOf, init);
    forall k | k in DetectedAmong(keyOf, init)
      ensures Rank(k.provider) < Rank(ps[|ps| - 1])
    {
      var n :| 0 <= n < |init| && init[n] == k.provider;
      assert ps[n] == k.provider;
    }
  }

  /** Entries that all rank below `p`, then at most one entry for `p`. */
  lemma OrderedBeforeLast(init: seq<DetectedKey>, p: Provider, last: seq<DetectedKey>)
    requires InSetupOrder(init)
    requires forall k :: k in init ==> Rank(k.provider) < Rank(p)
    requires |last| <= 1 && forall k :: k in last ==> k.provider == p
    ensures InSetupOrder(init + last)
  {
    var d := init + last;
    forall i, j | 0 <= i < j < |d|
      ensures Rank(d[i].provider) < Rank(d[j].provider)
    {
      if j < |init| {
        assert d[i] == init[i] && d[j] == init[j];
      } else {
        assert d[i] == init[i] && init[i] in init;
        assert d[j] == last[j - |init|] && last[j - |init|] in last;
      }
    }
  }

  /** Every detected entry carries the key `env_api_key_for` reads, and it
      is not blank. */
  lemma DetectedAreUsable(env: Env)
    ensures forall k :: k in Detected(env) ==> HasUsableKey(env, k.provider) && k.key == EnvApiKeyFor(env, k.provider).value
  {
    DetectedAmongSound(KeyOf(env), SETUP_ORDER);
  }

  /** Every provider with a usable key is detected. */
  lemma UsableAreDetected(env: Env, p: Provider)
    requires HasUsableKey(env, p)
    ensures DetectedKey(p, EnvApiKeyFor(env, p).value) in Detected(env)
  {
    assert p == SETUP_ORDER[Rank(p)];
    DetectedAmongComplete(KeyOf(env), SETUP_ORDER, p);
  }

  /** Entries appear in setup's order, so no provider appears twice. */
  lemma DetectedInOrder(env: Env)
    ensures InSetupOrder(Detected(env))
  {
    DetectedAmongOrdered(KeyOf(env), SETUP_ORDER);
  }

  /** Only Vercel reads two variables, and a set one wins even when blank. */
  lemma BlankGatewayKeyHidesFallback(env: Env)
    requires "VERCEL_AI_GATEWAY_API_KEY" in env && IsBlank(env["VERCEL_AI_GATEWAY_API_KEY"])
    ensures !HasUsableKey(env, Vercel)
  {
  }
}
