# baishify, modelled in Dafny

baishify (`b`) turns a natural-language request into one bash command. It
resolves a configuration from the command line, the environment and a
configuration file. It sends the request to one of four model providers
(OpenAI, Anthropic, OpenRouter, the Vercel AI Gateway) and normalises the
reply into a command, an explanation and a safety label (`safe`, `caution`
or `risky`). In a terminal, the user then reviews the reply key by key:
Enter uses it, `r` regenerates, `e` explains, `c` copies and `q` quits.
`b setup` walks through choosing a provider, a key and a model. `b init`
installs a shell function that runs the accepted command in the user's
own shell.

This project models that core and proves properties of the model:

- `types.dfy` (module `Types`): the provider enumeration, its defaults
  and the configuration records, from `src/types.rs`.
- `providers.dfy` (`Providers`): from `src/providers/mod.rs`. It covers
  the dispatch to a client, the request each client sends, the extraction
  of the model's text from the reply envelope, `parse_model_output` and
  `normalize_safety`.
- `profile_splice.dfy` (`ProfileSplice`) and `shell_integration.dfy`
  (`ShellIntegration`): from `src/shell_integration.rs`. They cover the
  wrapper block, `parse_shell_name`, `install`, and `upsert_block` with
  its idempotence. `ProfileSplice` states the splice for any pair of
  markers. `UpsertBlock` is the push-by-push method the source writes,
  proved equal to it.
- `ui.dfy` (`Ui`): from `src/ui.rs`. It covers the review loop of
  `run_interactive` as two nested loops over a key sequence, the loader
  of `generate_with_loader` as a loop over channel events and clock
  readings, and `emit_non_interactive`.
- `config_env.dfy` (`ConfigEnv`) and `config.dfy` (`Config`): from
  `src/config.rs`.
  - `ConfigEnv` covers the environment lookups and
    `detected_provider_keys`.
  - `Config` covers the token loop of `parse_cli` (a method with a loop
    invariant over a scanning function), its precedence chains and
    `merge_cli_with_setup`.
- `onboarding.dfy` (`Onboarding`): the list logic of `src/onboarding.rs`.
  It covers `extract_model_ids` (loops over the reply's items), the cache
  freshness rule, `resolve_model_candidates`, the items and default index
  of the model picker, the custom-id prompt, `select_provider` and
  `select_api_key` (loops over prompt answers).
- Support modules:
  - `text.dfy` (`Text`): the Rust string operations the code relies on
    (`trim`, `trim_matches`, `trim_start_matches`, `trim_end_matches`,
    `to_ascii_lowercase`, `find`, `contains`, `lines`, `join`),
    specified and proved once.
  - `str_order.dfy` (`StrOrder`): the ordering of `String` and what
    `sort` followed by `dedup` leaves.
  - `wrappers.dfy` (`Wrappers`): `Option` and `Result`.
  - `errors.dfy` (`Errors`): `AppError`, from `src/error.rs`.

The environment is a `map<string, string>`. Terminal keys, clock readings,
channel events, prompt answers, HTTP round trips, the clipboard's outcome
and file contents are all parameters of the model.

Where a reader might expect otherwise, the model follows the code:

- On the fallback path of `parse_model_output`, the label is always
  `caution`, because the code normalises the literal `"caution"` and not
  the command (`src/providers/mod.rs:150`). A fenced `ls -la` therefore
  gets `caution`, not `safe`.
- On the structured path, an empty `command` is accepted as decoded; only
  the fallback path rejects an empty command.

## Model

| member | source | states |
|---|---|---|
| Types.Parse | src/types.rs:22-30 | the result is Some exactly when the ASCII-lower-cased input is one of the provider's accepted names |
| Types.AsStr | src/types.rs:32-39 | the printed name of a provider; `ParseAsStr` proves `parse` gives the provider back |
| Types.DefaultBaseUrl | src/types.rs:41-48 | the default base URL of each provider; `DefaultsWellFormed` states its shape |
| Types.DefaultModel | src/types.rs:50-57 | the default model of each provider; `DefaultsWellFormed` states it is not blank |
| Types.ProviderApiKeyMissing | src/types.rs:85-87 | the key is missing when it trims to nothing; `ApiKeyMissingIff` states it as whitespace only |
| Types.ParseAsStr | src/types.rs:22-39 | parsing the printed name of a provider gives that provider back |
| Types.ParseIgnoresCase | src/types.rs:23 | inputs equal after ASCII lower-casing parse alike |
| Types.ParseVercelAliases | src/types.rs:27 | `vercel`, `vercel-ai-gateway` and `gateway`, in any case, parse to Vercel |
| Types.ParseDoesNotTrim | src/types.rs:22-30 | input starting with whitespace is rejected, because no trimming happens |
| Types.DefaultsWellFormed | src/types.rs:3-10 | every default base URL starts with `https://` and has no trailing '/'; every default model is not blank |
| Types.ApiKeyMissingIff | src/types.rs:85-87 | the key counts as missing exactly when it is whitespace only |
| Text.TrimShape | src/types.rs:86 | `trim` gives the empty string exactly for a blank string; otherwise the result starts and ends with non-whitespace |
| Text.Trim | src/types.rs:86 | `trim`; `TrimShape`, `TrimIdempotent` and `TrimBySlice` state what it keeps |
| Text.TrimIdempotent | src/providers/mod.rs:136 | trimming twice is trimming once |
| Text.TrimBySlice | src/providers/mod.rs:136 | `trim_matches` keeps one contiguous slice of its input |
| Text.TrimByWrapped | src/providers/mod.rs:136 | trimming `a + m + c` leaves `m` when `a` and `c` consist of trimmed characters and `m` does not start or end with one |
| Text.LowerOfLower | src/providers/mod.rs:155 | ASCII lower-casing leaves lower-case text unchanged and is idempotent |
| Text.ToAsciiLower | src/providers/mod.rs:155 | the same length, with each ASCII capital lower-cased and every other character kept |
| Text.FindFrom | src/shell_integration.rs:136-137 | the result is the first occurrence at or after the start index, or None when there is none |
| Text.FindExtends | src/shell_integration.rs:137 | appending text keeps the first occurrence where it was |
| Text.Lines | src/providers/mod.rs:137-138 | no line holds a line feed, and non-empty text has a line; `LinesJoin` ties the lines back to the text |
| Text.LinesJoin | src/providers/mod.rs:137-138 | for text without carriage returns, joining the lines with line feeds gives the text back, less a final line feed |
| Text.FirstNonBlank | src/providers/mod.rs:139 | the result is a non-blank line preceded only by blank lines, that is the first non-blank one; None only when every line is blank |
| Text.FirstNonBlankFrom | src/onboarding.rs:347-354 | blank entries before index n do not change the first non-blank one |
| Text.Join | src/config.rs:124 | `join`; `JoinSnoc` and `LinesJoin` state where the separator goes |
| Text.JoinSnoc | src/config.rs:124 | the separator goes only between consecutive parts: joining `parts + [last]` is joining `parts`, the separator, then `last` |
| Providers.ContainsAny | src/providers/mod.rs:161-162 | true exactly when some pattern occurs in the text |
| Providers.Classify | src/providers/mod.rs:160-168 | the heuristic always returns one of the three labels |
| Providers.ClassifyIff | src/providers/mod.rs:160-168 | `risky` exactly when a destructive pattern occurs; `caution` exactly when none does and `sudo` or `chmod 777` does; `safe` exactly when none of them does; all on the lower-cased command |
| Providers.RiskyExample | src/providers/mod.rs:161-163 | `sudo rm -rf /` is risky: the destructive pattern wins over `sudo` |
| Providers.SafeExample | src/providers/mod.rs:166-167 | `ls -la` is safe |
| Providers.NormalizeSafety | src/providers/mod.rs:154-169 | the result is a label; a raw label that is a valid label once trimmed and lower-cased is returned in that form; any other raw label is replaced by the command's classification |
| Providers.LabelIsKept | src/providers/mod.rs:155-158 | a valid raw label survives whatever the command |
| Providers.Cleaned | src/providers/mod.rs:136 | the reply trimmed of whitespace, backticks and whitespace; `FallbackFailsIffEmpty` and `FenceIsCleaned` state what it leaves |
| Providers.FallbackCommand | src/providers/mod.rs:137-142 | the first non-blank line of the cleaned text, trimmed; `FallbackCommandIsFirstLine` states it is the first line |
| Providers.ParseModelOutput | src/providers/mod.rs:130-152 | a success always carries a valid label; a decoded record always succeeds; a fallback success has a non-empty command without line feeds and the placeholder explanation; a failure is "model returned empty output" |
| Providers.StructuredPath | src/providers/mod.rs:131-134 | a decoded record keeps its command and explanation; only its label is normalised |
| Providers.FallbackFailsIffEmpty | src/providers/mod.rs:136-145 | without a decoded record, parsing fails exactly when nothing is left after trimming whitespace and backticks |
| Providers.FallbackCommandIsFirstLine | src/providers/mod.rs:136-151 | without a decoded record, the command is the first line of the cleaned text, trimmed, with the placeholder explanation and label `caution` |
| Providers.FencedReply | src/providers/mod.rs:136-151 | a one-line command in a bare code fence parses to that command, labelled `caution` |
| Providers.FencedReplyExample | src/providers/mod.rs:136-151 | the fenced reply of `ls -la` parses to `ls -la` with the placeholder explanation and `caution` |
| Providers.DispatchIsBijective | src/providers/mod.rs:15-23 | each provider selects exactly one client and each client serves exactly one provider |
| Providers.ClientFor | src/providers/mod.rs:16-21 | the client of each provider; `DispatchIsBijective` states the mapping is one to one |
| Providers.Endpoint | src/providers/mod.rs:45 | the URL ends with the path; what precedes the path is a prefix of the base URL that does not end in '/', and every character of the base URL it leaves out is a '/' |
| Providers.EndpointIgnoresTrailingSlash | src/providers/mod.rs:87 | a trailing '/' on the base URL does not change the endpoint |
| Providers.AnthropicRequest | src/providers/mod.rs:44-62 | the key goes in `x-api-key`, and no Authorization header is sent |
| Providers.ChatRequest | src/providers/mod.rs:81-112 | the key goes in a bearer Authorization header; the body has temperature 0 and no token limit |
| Providers.RequestFor | src/providers/mod.rs:44-112 | the request each client sends; `RequestShape` states its URL, model, temperature and user message |
| Providers.RequestShape | src/providers/mod.rs:45-54 | the URL is the trimmed base URL plus `/v1/messages` (Anthropic) or `/chat/completions` (the others); the body carries the configured model, temperature 0, and the prompt as the last, user message |
| Providers.FirstChoiceContent | src/providers/mod.rs:115-121 | succeeds exactly when there is a choice, with the first choice's content; otherwise fails with "no choices returned" |
| Providers.FirstTextIndex | src/providers/mod.rs:64-67 | the index of the first block of type `text`, or None when there is none |
| Providers.AnthropicText | src/providers/mod.rs:64-69 | succeeds exactly when the first text block carries text, and returns that text; otherwise fails with "no text content returned" |
| Providers.ReplyText | src/providers/mod.rs:56-121 | the model text of a reply, through the client's envelope; `ChatOutcome` and `AnthropicOutcome` state it end to end |
| Providers.Generate | src/providers/mod.rs:25-72 | `ProviderClient::generate`: a success always carries a valid label |
| Providers.GenerateOnce | src/providers/mod.rs:15-23 | a successful generation always carries a valid label |
| Providers.ChatOutcome | src/providers/mod.rs:15-23 | for OpenAI, OpenRouter and Vercel, end to end from the chat reply: a failed round trip is returned unchanged, no choices gives "no choices returned", otherwise the first choice's content goes through `parse_model_output` (also src/providers/mod.rs:114-123) |
| Providers.AnthropicOutcome | src/providers/mod.rs:56-71 | for Anthropic, end to end from the messages reply: a failed round trip is returned unchanged; no "text" block, or a first "text" block without text, gives "no text content returned"; otherwise that block's text goes through `parse_model_output` |
| ShellIntegration.ParseShellName | src/shell_integration.rs:108-114 | Some exactly when the trimmed, lower-cased input is `zsh` or `bash`, and then it names that shell |
| ShellIntegration.ParseShellNameAsStr | src/shell_integration.rs:15-20 | parsing a shell's name gives the shell back |
| ShellIntegration.AsStr | src/shell_integration.rs:15-20 | the shell's name; `ParseShellNameAsStr` proves parsing it gives the shell back |
| ShellIntegration.RcFilename | src/shell_integration.rs:22-27 | `.bashrc` for bash and `.zshrc` for zsh, the profile `Install` writes |
| ShellIntegration.WrapperBlock | src/shell_integration.rs:29-89 | the wrapper block; `WrapperBlockShape`, `BodyContains` and `WrapperBlockHasShape` state its shape and contents |
| ShellIntegration.WrapperBlockShape | src/shell_integration.rs:29-89 | the block is the begin-marker line, the function body and the end-marker line, and it holds the terminal guard, the pass-through flags and the output-file call |
| ShellIntegration.BodyContains | src/shell_integration.rs:174-179 | the program's test: the body holds the control-flag pattern, `command b --output-file` and the terminal guard |
| ShellIntegration.WrapperBlockHasShape | src/shell_integration.rs:29-89 | the generated block starts with the begin marker, and its first end marker is followed only by its final line feed |
| ShellIntegration.UpsertBlock | src/shell_integration.rs:135-167 | the method that builds the text by pushes returns exactly the splice of the existing text with the program's markers |
| ShellIntegration.Upsert | src/shell_integration.rs:135-167 | `upsert_block` with the program's markers; the ProfileSplice lemmas state what the splice does |
| ProfileSplice.MarkedSpan | src/shell_integration.rs:136-138 | the span starts at the first begin marker and ends just past the first end marker after it; it is unmarked exactly when either is missing |
| ProfileSplice.Splice | src/shell_integration.rs:135-167 | the splice of a block between any pair of markers; `ReplacePrefix`, `HeadThenTrailing`, `ReplaceChangedIff`, `AppendPath` and `SpliceIdempotent` state it |
| ProfileSplice.TrailingPart | src/shell_integration.rs:145-152 | what follows the block on the replace path; `HeadThenTrailing` states it |
| ProfileSplice.Terminated | src/shell_integration.rs:141-143 | a non-empty result ends in '\n'; the input is unchanged or gains exactly one '\n'; the result is empty only for empty input |
| ProfileSplice.ReplacePrefix | src/shell_integration.rs:140-144 | on the replace path, the text before the begin marker is kept verbatim, plus '\n' when it is non-empty and unterminated, followed by the block |
| ProfileSplice.HeadThenTrailing | src/shell_integration.rs:145-152 | after the block comes nothing when only line feeds followed the old end marker; otherwise one '\n', the rest without its leading line feeds, and a final '\n' |
| ProfileSplice.ReplaceChangedIff | src/shell_integration.rs:153-154 | on the replace path, the flag is set exactly when the text changed |
| ProfileSplice.AppendPath | src/shell_integration.rs:158-166 | without a marked span, the new text is the existing text, '\n' to terminate it if needed, a separating '\n' if it is non-empty, then the block; always a change |
| ProfileSplice.SpliceIntoEmpty | src/shell_integration.rs:158-166 | upserting into an empty profile gives exactly the block, reported as a change |
| ProfileSplice.SpliceIdempotent | src/shell_integration.rs:181-189 | for a well-formed block and a profile without a stray begin marker, a second upsert of the same block gives the same text and no change |
| ProfileSplice.IdempotentAfterReplace | src/shell_integration.rs:137-154 | idempotence when the first upsert replaced an old block |
| ProfileSplice.IdempotentAfterAppend | src/shell_integration.rs:158-166 | idempotence when the first upsert appended the block |
| ProfileSplice.PlacedIdempotent | src/shell_integration.rs:135-154 | a terminated, marker-free prefix, then the block, then a tail the splice rebuilds, is a fixed point of the splice |
| ShellIntegration.UpsertWrapperIdempotent | src/shell_integration.rs:181-189 | installing a shell's block twice into any profile without a stray begin marker leaves the first result unchanged |
| ShellIntegration.UpsertTwiceFromEmpty | src/shell_integration.rs:182-188 | the program's test: the first upsert into an empty profile is the block and a change; the second is no change |
| ShellIntegration.Install | src/shell_integration.rs:116-133 | with no home directory, the error is "unable to locate home directory"; otherwise the profile is written exactly when the upsert changed it, with the upserted text; the result names the shell, its profile path and whether it was updated; it fails exactly when a needed write fails, with that write's error |
| ShellIntegration.ReinstallWritesNothing | src/shell_integration.rs:116-133 | installing over a profile an earlier install produced writes nothing and reports no update |
| ShellIntegration.JoinPath | src/shell_integration.rs:119 | the path starts with the home directory and ends with the file name, with exactly one '/' between them |
| Ui.DispatchCases | src/ui.rs:34-73 | Enter on an empty command stays with a warning; otherwise it writes `cmd\n` to the output file when one is set, else runs the command. Only `r` regenerates, with a notice exactly when playful copy is on; only `q` quits; only Enter writes or runs; any other key stays |
| Ui.DispatchIgnoresCase | src/ui.rs:48-69 | letter keys are matched without regard to ASCII case |
| Ui.ExplainAndCopyStay | src/ui.rs:54-68 | `e` shows the trimmed explanation and `c` reports the clipboard's outcome; neither leaves review |
| Ui.Dispatch | src/ui.rs:34-73 | the action of one key in review; `DispatchCases`, `DispatchIgnoresCase` and `KeyEffects` state its cases and effects |
| Ui.OnKey | src/ui.rs:34-73 | the dispatch on the trimmed command and explanation; `ExplainAndCopyStay` states the `e` and `c` cases |
| Ui.Session | src/ui.rs:12-77 | a session from one generation on; `RunInteractive` is proved equal to it and `SessionEffects` and `QuitEndsSession` state its outcomes |
| Ui.Review | src/ui.rs:18-75 | a session in review of one reply; `ReviewKeys` is proved equal to it and `ReviewStep`, `ReviewEffects`, `RegenerateKeepsPrompt` and `StayKeepsReply` state it |
| Ui.RunInteractive | src/ui.rs:12-77 | the outer loop (generate, then review) ends exactly as the session function says for the keys given |
| Ui.ReviewKeys | src/ui.rs:18-75 | the inner loop reads keys until one ends review or asks to regenerate, and its outcome is the review function's for the remaining keys |
| Ui.ReviewStep | src/ui.rs:34-74 | review from key i is decided by the dispatch of key i |
| Ui.TrimmedCommandIff | src/ui.rs:36 | a command fit to run is exactly a non-empty string that `trim` leaves unchanged |
| Ui.KeyEffects | src/ui.rs:35-47 | for a reply whose trimmed command is empty or trimmed: a run is of a non-empty trimmed command and only when no output file is set; a write goes to the configured output file and is that command followed by one '\n' |
| Ui.SessionEffects | src/ui.rs:12-77 | whatever a session runs is a non-empty trimmed command, run only when no output file is set; whatever it writes goes to the configured output file and is such a command plus one '\n' |
| Ui.ReplyEffects | src/ui.rs:15-47 | the same, for a session once a reply has arrived |
| Ui.ReviewEffects | src/ui.rs:18-75 | the same, for a session in review of a reply |
| Ui.QuitEndsSession | src/ui.rs:69 | `q` ends the session at once, whatever keys follow |
| Ui.RegenerateKeepsPrompt | src/ui.rs:48-53 | `r` generates again for the same prompt, as the next attempt |
| Ui.StayKeepsReply | src/ui.rs:37-40 | a key that keeps review open moves on to the next key with the same reply |
| Ui.Initial | src/ui.rs:128-135 | the starting state indexes a spinner character and a phase label |
| Ui.Tick | src/ui.rs:143-150 | each timeout advances the spinner modulo 4; the phase advances modulo 4 and its tick is reset exactly when at least 850 ms have passed since the last phase tick |
| Ui.FirstFrame | src/ui.rs:134-135 | the first line, drawn before any wait, is `\| thinking...` |
| Ui.Loader | src/ui.rs:137-155 | at most one line is drawn per wait |
| Ui.GenerateWithLoader | src/ui.rs:113-156 | the loop returns the loader's result and draws the first line followed by the loader's lines |
| Ui.LoaderAt | src/ui.rs:138-154 | a received result ends the wait with that result; a disconnect ends it with "worker disconnected"; a timeout draws one line and waits again |
| Ui.SpinCountsTimeouts | src/ui.rs:144 | the spinner moves one step per timeout, whatever the clock says |
| Ui.PhaseHoldsWithinInterval | src/ui.rs:145-148 | the phase does not move while less than 850 ms have passed since its last tick |
| Ui.TimeoutsOnly | src/ui.rs:143-150 | over timeouts alone, no result arrives and exactly one line is drawn per timeout |
| Ui.FirstEventDecides | src/ui.rs:137-155 | the first event that is not a timeout decides the result; one line is drawn per earlier timeout |
| Ui.EmitNonInteractive | src/ui.rs:79-97 | `--json` prints one record with the provider's name, the model and the output; otherwise the trimmed command goes to stdout, and the trimmed explanation to stderr exactly when `--explain` is set |
| Ui.EmissionTrimmed | src/ui.rs:92-95 | plain output is already trimmed |
| ConfigEnv.FirstSet | src/config.rs:186-188 | the value of the first set variable in the list, or None when none is set |
| ConfigEnv.ProviderFromEnv | src/config.rs:164-168 | `BAISHIFY_PROVIDER` parsed as a provider; `ProviderPrecedence` states where it ranks |
| ConfigEnv.EnvModelFor | src/config.rs:170-179 | `BAISHIFY_MODEL`, else the provider's own model variable; `GenericVariablesWin` and `EnvLookupsAreScoped` state it |
| ConfigEnv.EnvApiKeyFor | src/config.rs:181-190 | the provider's own key variables in order; `GatewayFallback` and `EnvLookupsAreScoped` state it |
| ConfigEnv.EnvBaseUrlFor | src/config.rs:192-201 | `BAISHIFY_BASE_URL`, else the provider's own base-URL variables; `GenericVariablesWin` and `EnvLookupsAreScoped` state it |
| ConfigEnv.EnvLookupsAreScoped | src/config.rs:170-201 | the model, key and base-URL lookups read only the generic variables and the resolved provider's own |
| ConfigEnv.GenericVariablesWin | src/config.rs:170-179 | `BAISHIFY_MODEL` and `BAISHIFY_BASE_URL` win over the provider's own variables |
| ConfigEnv.GatewayFallback | src/config.rs:186-188 | `AI_GATEWAY_API_KEY` is read only when `VERCEL_AI_GATEWAY_API_KEY` is unset |
| ConfigEnv.PushUsable | src/config.rs:205-209 | one lookup appends the provider's entry exactly when the variable is set and not blank |
| ConfigEnv.DetectedProviderKeys | src/config.rs:203-230 | the method returns exactly the detected entries, in the order OpenAI, Anthropic, OpenRouter, Vercel |
| ConfigEnv.Detected | src/config.rs:203-230 | the detected entries; `DetectedAreUsable`, `UsableAreDetected` and `DetectedInOrder` state them |
| ConfigEnv.DetectedAreUsable | src/config.rs:203-230 | every detected entry carries the key the provider's lookup reads, and that key is not blank |
| ConfigEnv.UsableAreDetected | src/config.rs:203-230 | every provider whose key is set and not blank is detected |
| ConfigEnv.DetectedInOrder | src/config.rs:203-230 | entries come in setup's order, so no provider appears twice |
| ConfigEnv.BlankGatewayKeyHidesFallback | src/config.rs:220-228 | a set but blank `VERCEL_AI_GATEWAY_API_KEY` hides `AI_GATEWAY_API_KEY`, so Vercel is not detected |
| Config.ParseCli | src/config.rs:32-140 | the token loop followed by the precedence chains returns exactly the parse function's result |
| Config.CliResult | src/config.rs:32-140 | the result of `parse_cli` as a function; `ParseCli` is proved equal to it |
| Config.ScanFrom | src/config.rs:45-94 | the token loop as a function; `ScanAppend`, `MissingValueIsError`, `UnknownProviderIsError`, `HelpStopsTheLoop` and `WordsAreCollected` state it |
| Config.Resolve | src/config.rs:96-139 | the precedence chains; `ProviderPrecedence`, `SettingPrecedence`, `FileSettingsComeLast` and `NoFunIsAnyOf` state them |
| Config.ScanAppend | src/config.rs:46-94 | scanning can be split after any prefix the loop gets through |
| Config.MissingValueIsError | src/config.rs:57-91 | a value option given as the last token fails with "<flag> requires a value" |
| Config.UnknownProviderIsError | src/config.rs:57-67 | a provider name that `parse` rejects fails with the unsupported-provider message naming it |
| Config.HelpStopsTheLoop | src/config.rs:48-51 | `-h` or `--help` ends parsing with the usage request, whatever follows |
| Config.WordsAreCollected | src/config.rs:92 | tokens that are not options are collected in order |
| Config.PromptIsJoinedWords | src/config.rs:121-125 | for words only, parsing succeeds and the prompt is the words joined by single spaces, or None when there are none |
| Config.ProviderPrecedence | src/config.rs:96-100 | provider: the command line, then `BAISHIFY_PROVIDER`, then the file, then OpenAI |
| Config.SettingPrecedence | src/config.rs:102-119 | model, base URL and key: the command line, then the environment for the resolved provider, then the file, then the provider's default (empty for the key) |
| Config.FileSettingsComeLast | src/config.rs:102-119 | a file setting is used when neither the command line nor the environment gives one |
| Config.NoFunIsAnyOf | src/config.rs:112-114 | playful copy is off exactly when `--no-fun` is given, `B_FUN=0`, or the file says `no_fun = true` |
| Config.OutputFileFlagExample | src/config.rs:294-317 | the program's test: `--output-file /tmp/cmd.out list files` gives that output file and the prompt `list files` |
| Config.ScopedBaseUrlExample | src/config.rs:273-292 | the program's test: with `BAISHIFY_PROVIDER=openrouter`, the base URL comes from `OPENROUTER_BASE_URL`, not `OPENAI_BASE_URL` |
| Config.Adopt | src/config.rs:148-157 | a setting changes only when it equals the default, and then only to the value setup chose |
| Config.MergeCliWithSetup | src/config.rs:142-162 | fails with "setup did not return api key" exactly when the key is empty and setup gave none; otherwise returns the merged configuration |
| Config.Merged | src/config.rs:143-160 | the merged configuration; `MergeKeepsUserChoices` and `MergeAdoptsSetup` state what changes |
| Config.MergeKeepsUserChoices | src/config.rs:142-162 | a key, model or base URL the user chose is never replaced, and only key, model, base URL and provider can change |
| Config.MergeAdoptsSetup | src/config.rs:142-162 | setup's key replaces an empty key; its model and base URL replace defaults; its provider always wins |
| StrOrder.BelowTotal | src/onboarding.rs:187 | any two different strings are ordered one way |
| StrOrder.BelowTransitive | src/onboarding.rs:187 | the string order is transitive |
| StrOrder.SortDedup | src/onboarding.rs:187-188 | sorting and removing duplicates gives a strictly increasing list with the same members |
| StrOrder.IncreasingIsUnique | src/onboarding.rs:187-188 | only one strictly increasing list has a given set of members, so the result does not depend on the sorting algorithm |
| StrOrder.SortDedupKeepsIncreasing | src/onboarding.rs:187-188 | sorting and deduplicating a strictly increasing list changes nothing |
| Onboarding.Get | src/onboarding.rs:251 | a member is found exactly when the value is an object holding the key |
| Onboarding.CollectIds | src/onboarding.rs:252-256 | the loop collects the string ids of the items, in order |
| Onboarding.ExtractModelIds | src/onboarding.rs:249-267 | the ids of the `data` array when there is one, else those of the reply when it is an array, else nothing |
| Onboarding.ModelIds | src/onboarding.rs:249-267 | the ids of a reply; `ExtractModelIds` is proved equal to it and `ReplyShapes` and `OtherRepliesYieldNothing` state it |
| Onboarding.IdsAppend | src/onboarding.rs:252-256 | ids are collected item by item: the ids of a concatenation are the ids of each part, in order |
| Onboarding.IdsAreIds | src/onboarding.rs:253 | each collected id is the id of some item |
| Onboarding.IdsOneForOne | src/onboarding.rs:252-256 | when every item has an id, the ids are the items' ids one for one, in order |
| Onboarding.OtherRepliesYieldNothing | src/onboarding.rs:259-266 | a reply that is neither an object with a `data` array nor an array yields no ids |
| Onboarding.ReplyShapes | src/onboarding.rs:249-267 | `{"data": [...]}` and a bare array both yield their items' ids, skipping items without one |
| Onboarding.SaturatingSub | src/onboarding.rs:290 | the difference, or 0 when it would be negative |
| Onboarding.CacheFreshIff | src/onboarding.rs:282-297 | a cached list is used exactly when it is at most 86400 s old (a future stamp counts as fresh) and not empty, and it is used unchanged |
| Onboarding.LoadModelsCache | src/onboarding.rs:282-297 | the cached list when fresh and not empty; `CacheFreshIff` states when |
| Onboarding.ModelCandidates | src/onboarding.rs:362-399 | every built-in list has at least three models |
| Onboarding.ModelsUrlShape | src/onboarding.rs:217-220 | the list endpoint is the trimmed base URL plus `/v1/models` for Anthropic and `/models` otherwise; a trailing '/' changes nothing |
| Onboarding.ModelsUrl | src/onboarding.rs:217-220 | the model-list endpoint; `ModelsUrlShape` states it |
| Onboarding.ResolveModelCandidates | src/onboarding.rs:179-209 | the live list, else the cache, else the built-in list; `CandidatesFallback` states it |
| Onboarding.CandidatesFallback | src/onboarding.rs:179-209 | the candidates are never empty. A non-empty live list comes back strictly increasing with the same models; otherwise the fresh cache is used, else the built-in list |
| Onboarding.SelectModelItems | src/onboarding.rs:151-157 | the items are the candidates, with the default model put first when missing, then the custom entry; the picker starts on the first occurrence of the default |
| Onboarding.ReadCustomModel | src/onboarding.rs:164-173 | the first non-blank answer, trimmed (never empty); None exactly when every answer is blank |
| Onboarding.SelectModel | src/onboarding.rs:164-176 | a picked model is returned as listed; the custom entry leads to the custom-id prompt |
| Onboarding.ProviderAt | src/onboarding.rs:130-136 | indices 0 to 3 map to the providers in setup's order; any other index fails |
| Onboarding.ProviderIndexInverse | src/onboarding.rs:117-136 | the picker's default index and the index-to-provider mapping are inverse |
| Onboarding.SuggestedProvider | src/onboarding.rs:114-116 | the saved provider, else the first detected one, else OpenAI; `SelectProvider` states that its index selects it |
| Onboarding.SelectProvider | src/onboarding.rs:102-138 | the suggested provider's index selects it; indices 0 to 3 select the providers in setup's order; any other index fails with "invalid provider selection" |
| Onboarding.DetectedKeyFor | src/onboarding.rs:327 | None exactly when no entry is for the provider; otherwise the key of an entry for it that only other providers' entries precede, that is the first one |
| Onboarding.DetectedKeyFrom | src/onboarding.rs:327 | entries for other providers before index i do not change the key found |
| Onboarding.ApiKeyChoice | src/onboarding.rs:321-360 | the key chosen; `ApiKeyChoiceSources` states where it comes from and `SelectApiKey` is proved equal to it |
| Onboarding.ApiKeyChoiceSources | src/onboarding.rs:321-360 | the key comes from a detected entry, the saved key or a non-blank typed key; a confirmed detected key always ends the choice |
| Onboarding.SelectApiKey | src/onboarding.rs:321-360 | the detected key when confirmed, else the saved key when confirmed, else the first non-blank typed key as typed; None when the typed keys run out |

## Left out

- HTTP, JSON and TOML are not modelled. The HTTP round trip and the
  decoding of replies are parameters (`Providers.Http`, the `decode`
  function, the live-list outcome). Loading and saving the configuration
  file (`load_file_config`, `save_file_config`, `config_file_path`) are
  replaced by the parsed `FileConfig` option.
- The worker thread and the mpsc channel of `generate_with_loader` are not
  modelled. They are replaced by the sequence of events the loop observes.
  Drawing is modelled as the lines drawn; ANSI clearing is not modelled.
- Terminal painting (`paint`, `render_result_card`, `divider`, `step`,
  `render_intro`) and `print_usage` are left out as output only. `-h`
  ends parsing with `Cli.Help` rather than exiting.
- `copy_to_clipboard` is not modelled: its outcome is the `copyWorks`
  parameter. `run_command` is also not modelled: the session ends with
  `RanCommand`, and the command's own status and an error from
  `fs::write` are not modelled.
- The `dialoguer` prompts are replaced by their answers. A prompt that
  fails (the user aborts) is modelled as the answers running out, which
  yields `None` or the `InputExhausted` end.
- `Ui.SessionEnd.InputExhausted` exists only in the model: a finite key
  sequence can end before the session does.
- `run_onboarding`'s orchestration is not modelled: the printing, the
  test prompt and saving the result. Neither are
  `maybe_install_shell_integration` and `detect_shell_from_env`; these
  only chain the modelled operations with I/O.
- `save_models_cache` and `models_cache_path` are not modelled: a file
  write and a path. The clock is a parameter.
- JSON numbers are modelled as integers; model ids are read only from
  strings.
- Indices into strings count characters, not UTF-8 bytes. Every marker
  and pattern in the program is ASCII, so no cut point differs.
- `Onboarding.ModelCandidates`: only the length bound is stated; the lists
  themselves are the function's body.
- `Onboarding.SelectModel`: the index comes from the fuzzy picker and is
  a parameter; the picker itself is not modelled.
- `Ui.Tick`: one clock reading serves both for the time elapsed since the
  last phase tick and for the new phase tick; the program reads the clock
  twice, a moment apart.
- `ProfileSplice.SpliceIdempotent`: idempotence is proved only for
  profiles whose first begin marker has an end marker after it. With a
  stray begin marker, the first upsert appends a second block, and a
  later upsert then replaces from the stray marker.
