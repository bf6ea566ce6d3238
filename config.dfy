/**
 * Command-line resolution (src/config.rs): the token loop of `parse_cli`,
 * the precedence chains that build the configuration from the command line,
 * the environment and the configuration file, and the merge with the
 * answers of the setup wizard.
 */
module Config {
  import opened Wrappers
  import opened Text
  import opened Errors
  import opened Types
  import opened ConfigEnv

  // ---------------------------------------------------------------------
  // parse_cli

  /** The mutable locals of `parse_cli`'s token loop. */
  datatype Flags = Flags(
    explain: bool,
    json: bool,
    plain: bool,
    noFun: bool,
    setup: bool,
    provider: Option<Provider>,
    model: Option<string>,
    baseUrl: Option<string>,
    apiKey: Option<string>,
    outputFile: Option<string>,
    promptParts: seq<string>)

  const NO_FLAGS := Flags(false, false, false, false, false, None, None, None, None, None, [])

  /** How the token loop ends: with the flags, on `-h`/`--help` (where the
      program prints its usage and exits), or with an error. */
  datatype Scan = Done(flags: Flags) | HelpAsked | Bad(error: AppError)

  /** The options that take the next token as their value. */
  predicate TakesValue(arg: string) {
    arg in {"--provider", "--model", "--base-url", "--api-key", "--output-file"}
  }

  /** Every token the loop recognises. */
  predicate IsOption(arg: string) {
    || arg in {"-h", "--help", "setup", "-e", "--explain", "--json", "--plain", "--no-fun"}
    || TakesValue(arg)
  }

  function MissingValue(flag: string): AppError {
    Message(flag + " requires a value")
  }

  const SUPPORTED := " (use: openai, anthropic, openrouter, vercel)"

  function UnsupportedProvider(value: string): AppError {
    Message("unsupported provider `" + value + "`" + SUPPORTED)
  }

  /** The options that only switch a flag on. */
  predicate IsSwitch(arg: string) {
    arg in {"setup", "-e", "--explain", "--json", "--plain", "--no-fun"}
  }

  /** A switch option. */
  function Switch(flags: Flags, arg: string): Flags
    requires IsSwitch(arg)
  {
    if arg == "setup" then flags.(setup := true)
    else if arg == "-e" || arg == "--explain" then flags.(explain := true)
    else if arg == "--json" then flags.(json := true)
    else if arg == "--plain" then flags.(plain := true)
    else flags.(noFun := true)
  }

  /** A value option with its value. */
  function SetValue(flags: Flags, flag: string, value: string): Scan
    requires TakesValue(flag)
  {
    if flag == "--provider" then
      match Parse(value)
      case None => Bad(UnsupportedProvider(value))
      case Some(p) => Done(flags.(provider := Some(p)))
    else if flag == "--model" then Done(flags.(model := Some(value)))
    else if flag == "--base-url" then Done(flags.(baseUrl := Some(value)))
    else if flag == "--api-key" then Done(flags.(apiKey := Some(value)))
    else Done(flags.(outputFile := Some(value)))
  }

  /** The token loop from `flags` over the remaining tokens. */
  function ScanFrom(flags: Flags, args: seq<string>): Scan
    decreases |args|
  {
    if args == [] then Done(flags)
    else
      var arg := args[0];
      if arg == "-h" || arg == "--help" then HelpAsked
      else if IsSwitch(arg) then ScanFrom(Switch(flags, arg), args[1..])
      else if TakesValue(arg) then
        if |args| == 1 then Bad(MissingValue(arg))
        else match SetValue(flags, arg, args[1])
          case Done(next) => ScanFrom(next, args[2..])
          case other => other
      else ScanFrom(flags.(promptParts := flags.promptParts + [arg]), args[1..])
  }

  /** The precedence chains after the loop. */
  function Resolve(flags: Flags, file: Option<FileConfig>, env: Env): AppConfig {
    var cfgProvider := if file.Some? then file.value.provider else None;
    var provider := flags.provider.Or(ProviderFromEnv(env)).Or(cfgProvider).GetOr(Openai);
    var fileModel := if file.Some? then file.value.model else None;
    var model := flags.model.Or(EnvModelFor(env, provider)).Or(fileModel).GetOr(DefaultModel(provider));
    var fileBaseUrl := if file.Some? then file.value.baseUrl else None;
    var baseUrl := flags.baseUrl.Or(EnvBaseUrlFor(env, provider)).Or(fileBaseUrl).GetOr(DefaultBaseUrl(provider));
    var fileNoFun := if file.Some? then file.value.noFun else None;
    var noFun := flags.noFun || Var(env, "B_FUN") == Some("0") || fileNoFun.GetOr(false);
    var fileApiKey := if file.Some? then file.value.apiKey else None;
    var apiKey := flags.apiKey.Or(EnvApiKeyFor(env, provider)).Or(fileApiKey).GetOr("");
    var prompt := if flags.promptParts == [] then None else Some(Join(flags.promptParts, " "));
    AppConfig(provider, model, baseUrl, apiKey, flags.explain, flags.json, flags.plain, noFun,
              flags.setup, prompt, flags.outputFile)
  }

  /** What `parse_cli` yields: a configuration, or the usage request. */
  datatype Cli = Parsed(config: AppConfig) | Help

  /** `parse_cli`, as a function of the tokens, the configuration file and
      the environment. */
  function CliResult(args: seq<string>, file: Option<FileConfig>, env: Env): Result<Cli, AppError> {
    match ScanFrom(NO_FLAGS, args)
    case Done(flags) => Success(Parsed(Resolve(flags, file, env)))
    case HelpAsked => Success(Help)
    case Bad(e) => Failure(e)
  }

  /** `parse_cli`: the token loop, then the chains. The loop's mutable
      locals are the fields of `flags`. */
  method ParseCli(args: seq<string>, file: Option<FileConfig>, env: Env) returns (r: Result<Cli, AppError>)
    ensures r == CliResult(args, file, env)
  {
    var flags := NO_FLAGS;
    var i := 0;
    while i < |args|
      invariant i <= |args|
      invariant ScanFrom(NO_FLAGS, args) == ScanFrom(flags, args[i..])
      decreases |args| - i
    {
      ghost var before := flags;
      ghost var rest := args[i..];
      var arg := args[i];
      i := i + 1;
      if arg == "-h" || arg == "--help" {
        return Success(Help);
      } else if IsSwitch(arg) {
        if arg == "setup" {
          flags := flags.(setup := true);
        } else if arg == "-e" || arg == "--explain" {
          flags := flags.(explain := true);
        } else if arg == "--json" {
          flags := flags.(json := true);
        } else if arg == "--plain" {
          flags := flags.(plain := true);
        } else {
          flags := flags.(noFun := true);
        }
        ScanSwitch(before, rest);
        assert rest[1..] == args[i..];
      } else if TakesValue(arg) {
        if i == |args| {
          ScanMissing(before, rest);
          return Failure(MissingValue(arg));
        }
        var value := args[i];
        i := i + 1;
        ScanValue(before, rest);
        if arg == "--provider" {
          var provider := Parse(value);
          if provider.None? {
            return Failure(UnsupportedProvider(value));
          }
          flags := flags.(provider := provider);
        } else if arg == "--model" {
          flags := flags.(model := Some(value));
        } else if arg == "--base-url" {
          flags := flags.(baseUrl := Some(value));
        } else if arg == "--api-key" {
          flags := flags.(apiKey := Some(value));
        } else {
          flags := flags.(outputFile := Some(value));
        }
        assert rest[2..] == args[i..];
        assert SetValue(before, arg, value) == Done(flags);
      } else {
        flags := flags.(promptParts := flags.promptParts + [arg]);
        ScanWord(before, rest);
        assert rest[1..] == args[i..];
      }
    }
    return Success(Parsed(Resolve(flags, file, env)));
  }

  /** One step of the loop over a switch. */
  lemma ScanSwitch(flags: Flags, rest: seq<string>)
    requires rest != [] && IsSwitch(rest[0])
    ensures ScanFrom(flags, rest) == ScanFrom(Switch(flags, rest[0]), rest[1..])
  {
  }

  /** A value option as the last token. */
  lemma ScanMissing(flags: Flags, rest: seq<string>)
    requires |rest| == 1 && TakesValue(rest[0])
    ensures ScanFrom(flags, rest) == Bad(MissingValue(rest[0]))
  {
  }

  /** One step of the loop over a value option and its value. */
  lemma ScanValue(flags: Flags, rest: seq<string>)
    requires |rest| >= 2 && TakesValue(rest[0])
    ensures ScanFrom(flags, rest) == match SetValue(flags, rest[0], rest[1])
      case Done(next) => ScanFrom(next, rest[2..])
      case other => other
  {
    assert !(rest[0] == "-h" || rest[0] == "--help") && !IsSwitch(rest[0]);
  }

  /** One step of the loop over a prompt word. */
  lemma ScanWord(flags: Flags, rest: seq<string>)
    requires rest != [] && !IsOption(rest[0])
    ensures ScanFrom(flags, rest) == ScanFrom(flags.(promptParts := flags.promptParts + [rest[0]]), rest[1..])
  {
  }

  // ---------------------------------------------------------------------
  // Properties of parse_cli

  /** Scanning can be split after any prefix the loop gets through. */
  lemma {:induction false} ScanAppend(flags: Flags, a: seq<string>, b: seq<string>)
    requires ScanFrom(flags, a).Done?
    ensures ScanFrom(flags, a + b) == ScanFrom(ScanFrom(flags, a).flags, b)
    decreases |a|
  {
    if a == [] {
      assert a + b == b;
    } else {
      var arg := a[0];
      assert (a + b)[0] == arg;
      assert (a + b)[1..] == a[1..] + b;
      if IsSwitch(arg) {
        ScanAppend(Switch(flags, arg), a[1..], b);
      } else if TakesValue(arg) {
        assert |a| >= 2;
        assert (a + b)[1] == a[1];
        assert (a + b)[2..] == a[2..] + b;
        var next := SetValue(flags, arg, a[1]).flags;
        ScanAppend(next, a[2..], b);
      } else if !(arg == "-h" || arg == "--help") {
        ScanAppend(flags.(promptParts := flags.promptParts + [arg]), a[1..], b);
      }
    }
  }

  /** A value option given as the last token is an error naming it. */
  lemma MissingValueIsError(args: seq<string>, flag: string, file: Option<FileConfig>, env: Env)
    requires ScanFrom(NO_FLAGS, args).Done? && TakesValue(flag)
    ensures CliResult(args + [flag], file, env) == Failure(Message(flag + " requires a value"))
  {
    ScanAppend(NO_FLAGS, args, [flag]);
    ScanMissing(ScanFrom(NO_FLAGS, args).flags, [flag]);
  }

  /** A provider name `parse` rejects is an error naming it. */
  lemma UnknownProviderIsError(args: seq<string>, value: string, rest: seq<string>, file: Option<FileConfig>, env: Env)
    requires ScanFrom(NO_FLAGS, args).Done? && Parse(value).None?
    ensures CliResult(args + ["--provider", value] + rest, file, env)
      == Failure(UnsupportedProvider(value))
  {
    assert args + ["--provider", value] + rest == args + (["--provider", value] + rest);
    ScanAppend(NO_FLAGS, args, ["--provider", value] + rest);
    ScanValue(ScanFrom(NO_FLAGS, args).flags, ["--provider", value] + rest);
  }

  /** `-h` or `--help` after any prefix the loop gets through asks for the
      usage text, whatever follows. */
  lemma HelpStopsTheLoop(args: seq<string>, help: string, rest: seq<string>, file: Option<FileConfig>, env: Env)
    requires ScanFrom(NO_FLAGS, args).Done? && (help == "-h" || help == "--help")
    ensures CliResult(args + [help] + rest, file, env) == Success(Help)
  {
    assert args + [help] + rest == args + ([help] + rest);
    ScanAppend(NO_FLAGS, args, [help] + rest);
  }

  /** Tokens that are not options are collected, in order, as prompt words. */
  lemma {:induction false} WordsAreCollected(flags: Flags, words: seq<string>)
    requires forall i :: 0 <= i < |words| ==> !IsOption(words[i])
    ensures ScanFrom(flags, words) == Done(flags.(promptParts := flags.promptParts + words))
    decreases |words|
  {
    if words == [] {
      assert flags.promptParts + words == flags.promptParts;
    } else {
      var next := flags.(promptParts := flags.promptParts + [words[0]]);
      assert forall i :: 0 <= i < |words[1..]| ==> words[1..][i] == words[i + 1];
      WordsAreCollected(next, words[1..]);
      assert next.promptParts + words[1..] == flags.promptParts + words;
    }
  }

  /** The prompt is the words joined with single spaces, or None when there
      are none. */
  lemma PromptIsJoinedWords(words: seq<string>, file: Option<FileConfig>, env: Env)
    requires forall i :: 0 <= i < |words| ==> !IsOption(words[i])
    ensures CliResult(words, file, env).Success? && CliResult(words, file, env).value.Parsed?
    ensures CliResult(words, file, env).value.config.prompt == if words == [] then None else Some(Join(words, " "))
  {
    OnlyWords(words);
    PromptOfParts(NO_FLAGS.(promptParts := words), file, env);
  }

  lemma OnlyWords(words: seq<string>)
    requires forall i :: 0 <= i < |words| ==> !IsOption(words[i])
    ensures ScanFrom(NO_FLAGS, words) == Done(NO_FLAGS.(promptParts := words))
  {
    WordsAreCollected(NO_FLAGS, words);
    assert NO_FLAGS.promptParts + words == words;
  }

  lemma PromptOfParts(flags: Flags, file: Option<FileConfig>, env: Env)
    ensures Resolve(flags, file, env).prompt
      == if flags.promptParts == [] then None else Some(Join(flags.promptParts, " "))
  {
  }

  /** Provider precedence: the command line, then `BAISHIFY_PROVIDER`, then
      the configuration file, then OpenAI. */
  lemma ProviderPrecedence(flags: Flags, file: Option<FileConfig>, env: Env)
    ensures var p := Resolve(flags, file, env).provider;
      && (flags.provider.Some? ==> p == flags.provider.value)
      && (flags.provider.None? && ProviderFromEnv(env).Some? ==> p == ProviderFromEnv(env).value)
      && ((flags.provider.None? && ProviderFromEnv(env).None? && file.Some? && file.value.provider.Some?)
            ==> p == file.value.provider.value)
      && ((flags.provider.None? && ProviderFromEnv(env).None? && (file.None? || file.value.provider.None?))
            ==> p == Openai)
  {
  }

  /** Model, base URL and API key precedence: the command line, then the
      environment for the resolved provider, then the configuration file,
      then the provider's default (the empty key for the API key). */
  lemma SettingPrecedence(flags: Flags, file: Option<FileConfig>, env: Env)
    ensures var c := Resolve(flags, file, env);
      && (flags.model.Some? ==> c.model == flags.model.value)
      && (flags.model.None? && EnvModelFor(env, c.provider).Some? ==> c.model == EnvModelFor(env, c.provider).value)
      && ((flags.model.None? && EnvModelFor(env, c.provider).None? && (file.None? || file.value.model.None?))
            ==> c.model == DefaultModel(c.provider))
      && (flags.baseUrl.Some? ==> c.baseUrl == flags.baseUrl.value)
      && (flags.baseUrl.None? && EnvBaseUrlFor(env, c.provider).Some? ==> c.baseUrl == EnvBaseUrlFor(env, c.provider).value)
      && ((flags.baseUrl.None? && EnvBaseUrlFor(env, c.provider).None? && (file.None? || file.value.baseUrl.None?))
            ==> c.baseUrl == DefaultBaseUrl(c.provider))
      && (flags.apiKey.Some? ==> c.apiKey == flags.apiKey.value)
      && (flags.apiKey.None? && EnvApiKeyFor(env, c.provider).Some? ==> c.apiKey == EnvApiKeyFor(env, c.provider).value)
      && ((flags.apiKey.None? && EnvApiKeyFor(env, c.provider).None? && (file.None? || file.value.apiKey.None?))
            ==> c.apiKey == "")
  {
  }

  /** A setting from the configuration file is used only when neither the
      command line nor the environment gives one. */
  lemma FileSettingsComeLast(flags: Flags, f: FileConfig, env: Env)
    ensures var c := Resolve(flags, Some(f), env);
      && (flags.model.None? && EnvModelFor(env, c.provider).None? && f.model.Some? ==> c.model == f.model.value)
      && (flags.baseUrl.None? && EnvBaseUrlFor(env, c.provider).None? && f.baseUrl.Some? ==> c.baseUrl == f.baseUrl.value)
      && (flags.apiKey.None? && EnvApiKeyFor(env, c.provider).None? && f.apiKey.Some? ==> c.apiKey == f.apiKey.value)
  {
  }

  /** Playful copy is off when any one of the three sources says so. */
  lemma NoFunIsAnyOf(flags: Flags, file: Option<FileConfig>, env: Env)
    ensures Resolve(flags, file, env).noFun <==>
      flags.noFun || ("B_FUN" in env && env["B_FUN"] == "0") || (file.Some? && file.value.noFun == Some(true))
  {
  }

  /** The program's test: `--output-file PATH list files` gives that output
      file and the prompt "list files". */
  lemma OutputFileFlagExample(file: Option<FileConfig>, env: Env)
    ensures var r := CliResult(["--output-file", "/tmp/cmd.out", "list", "files"], file, env);
      r.Success? && r.value.Parsed? && r.value.config.outputFile == Some("/tmp/cmd.out")
      && r.value.config.prompt == Some("list files")
  {
    var args := ["--output-file", "/tmp/cmd.out", "list", "files"];
    ScanValue(NO_FLAGS, args);
    var f := NO_FLAGS.(outputFile := Some("/tmp/cmd.out"));
    assert args[2..] == ["list", "files"];
    assert !IsOption("list") && !IsOption("files");
    WordsAreCollected(f, ["list", "files"]);
    assert Join(["list", "files"], " ") == "list files";
  }

  /** The program's test: with `BAISHIFY_PROVIDER=openrouter`, the base URL
      comes from OpenRouter's own variable, not OpenAI's. */
  lemma ScopedBaseUrlExample(env: Env)
    requires env == map["BAISHIFY_PROVIDER" := "openrouter", "OPENAI_BASE_URL" := "https://wrong.example/v1",
                        "OPENROUTER_BASE_URL" := "https://right.example/v1", "OPENROUTER_API_KEY" := "k"]
    ensures var r := CliResult(["hello"], None, env);
      r.Success? && r.value.Parsed? && r.value.config.provider == Openrouter
      && r.value.config.baseUrl == "https://right.example/v1"
  {
    assert !IsOption("hello");
    WordsAreCollected(NO_FLAGS, ["hello"]);
    assert Parse("openrouter") == Some(Openrouter) by {
      ParseAsStr(Openrouter);
    }
    assert "BAISHIFY_BASE_URL" !in env;
  }

  // ---------------------------------------------------------------------
  // merge_cli_with_setup

  const NO_SETUP_KEY := "setup did not return api key"

  /** A setting setup may replace: `chosen` wins only over the default. */
  function Adopt(current: string, default: string, chosen: Option<string>): (r: string)
    ensures r == current || (chosen.Some? && r == chosen.value)
    ensures r != current ==> current == default
  {
    if current == default && chosen.Some? then chosen.value else current
  }

  /** The configuration after a successful merge: the API key only when none
      was given, the model and base URL only where they are still the
      defaults of the provider the configuration had before setup, and the
      provider whenever setup chose one. */
  function Merged(config: AppConfig, setup: FileConfig): AppConfig {
    config.(apiKey := if config.apiKey == [] then setup.apiKey.GetOr([]) else config.apiKey,
            model := Adopt(config.model, DefaultModel(config.provider), setup.model),
            baseUrl := Adopt(config.baseUrl, DefaultBaseUrl(config.provider), setup.baseUrl),
            provider := setup.provider.GetOr(config.provider))
  }

  /** `merge_cli_with_setup`: completes a parsed configuration with what
      first-run setup chose, failing when neither gave an API key. */
  method MergeCliWithSetup(config: AppConfig, setup: FileConfig) returns (r: Result<AppConfig, AppError>)
    ensures r.Failure? <==> config.apiKey == [] && setup.apiKey.None?
    ensures r.Failure? ==> r.error == Message(NO_SETUP_KEY)
    ensures r.Success? ==> r.value == Merged(config, setup)
  {
    ghost var m := Merged(config, setup);
    var c := config;
    if c.apiKey == [] {
      if setup.apiKey.None? {
        return Failure(Message(NO_SETUP_KEY));
      }
      c := c.(apiKey := setup.apiKey.value);
    }
    assert c == config.(apiKey := m.apiKey);
    if c.model == DefaultModel(c.provider) {
      if setup.model.Some? {
        c := c.(model := setup.model.value);
      }
    }
    assert c == config.(apiKey := m.apiKey, model := m.model);
    if c.baseUrl == DefaultBaseUrl(c.provider) {
      if setup.baseUrl.Some? {
        c := c.(baseUrl := setup.baseUrl.value);
      }
    }
    assert c == config.(apiKey := m.apiKey, model := m.model, baseUrl := m.baseUrl);
    if setup.provider.Some? {
      c := c.(provider := setup.provider.value);
    }
    return Success(c);
  }

  /** What a merge keeps: a key, model or base URL the user chose (one that
      differs from the default) is never replaced, and only those four
      settings change. */
  lemma MergeKeepsUserChoices(config: AppConfig, setup: FileConfig)
    ensures var c := Merged(config, setup);
      && (config.apiKey != [] ==> c.apiKey == config.apiKey)
      && (config.model != DefaultModel(config.provider) ==> c.model == config.model)
      && (config.baseUrl != DefaultBaseUrl(config.provider) ==> c.baseUrl == config.baseUrl)
      && c.(apiKey := config.apiKey, model := config.model, baseUrl := config.baseUrl, provider := config.provider) == config
  {
  }

  /** What a merge takes from setup: its key when none was given, its model
      and base URL over the defaults, and its provider. */
  lemma MergeAdoptsSetup(config: AppConfig, setup: FileConfig)
    ensures var c := Merged(config, setup);
      && (config.apiKey == [] && setup.apiKey.Some? ==> c.apiKey == setup.apiKey.value)
      && ((config.model == DefaultModel(config.provider) && setup.model.Some?) ==> c.model == setup.model.value)
      && ((config.baseUrl == DefaultBaseUrl(config.provider) && setup.baseUrl.Some?) ==> c.baseUrl == setup.baseUrl.value)
      && (setup.provider.Some? ==> c.provider == setup.provider.value)
      && (setup.provider.None? ==> c.provider == config.provider)
  {
  }
}
