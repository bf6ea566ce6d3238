/**
 * The generation pipeline (src/providers/mod.rs): the dispatch from the
 * configured provider to one client, the request each client sends, the
 * extraction of the model's text from the reply envelope, and the
 * normalisation of that text into a GenerationOutput with a safety label.
 *
 * The HTTP round trip and the JSON decoding of the reply are outside the
 * model: a client hands its HttpRequest to `Http` and receives the decoded
 * envelope or an error; decoding the model's own text as a structured
 * record is the `decode` parameter.
 */
module Providers {
  import opened Wrappers
  import opened Text
  import opened Errors
  import opened Types

  const SYSTEM_PROMPT := "You convert natural language intent into exactly one bash command. Return JSON only with keys: command, explanation, safety. safety must be one of safe|caution|risky. command must be plain bash (no backticks, no markdown, no leading $). Keep commands concise and practical for macOS/Linux."

  const PLACEHOLDER_EXPLANATION := "Model did not provide structured explanation."

  // ---------------------------------------------------------------------
  // Safety classification

  const SAFE := "safe"
  const CAUTION := "caution"
  const RISKY := "risky"

  predicate IsSafetyLabel(s: string) {
    s == SAFE || s == CAUTION || s == RISKY
  }

  /** Substrings that make a command risky, checked before anything else. */
  const RISKY_PATTERNS: seq<string> := ["rm -rf", "mkfs", "dd if=", "shutdown", "reboot"]

  /** `patterns.iter().any(|p| s.contains(p))` */
  function ContainsAny(s: string, patterns: seq<string>): (b: bool)
    ensures b <==> exists i :: 0 <= i < |patterns| && Contains(s, patterns[i])
  {
    if patterns == [] then false
    else Contains(s, patterns[0]) || ContainsAny(s, patterns[1..])
  }

  /** The heuristic used when the raw label is not one of the three. */
  function Classify(command: string): (r: string)
    ensures IsSafetyLabel(r)
  {
    var lower := ToAsciiLower(command);
    if ContainsAny(lower, RISKY_PATTERNS) then RISKY
    else if Contains(lower, "sudo") || Contains(lower, "chmod 777") then CAUTION
    else SAFE
  }

  /** On the ASCII-lower-cased command, any risky substring wins, then
      `sudo` or `chmod 777` give caution, and everything else is safe. */
  lemma ClassifyIff(command: string)
    ensures Classify(command) == RISKY <==>
      exists i :: 0 <= i < |RISKY_PATTERNS| && Contains(ToAsciiLower(command), RISKY_PATTERNS[i])
    ensures Classify(command) == CAUTION <==>
      (forall i :: 0 <= i < |RISKY_PATTERNS| ==> !Contains(ToAsciiLower(command), RISKY_PATTERNS[i]))
      && (Contains(ToAsciiLower(command), "sudo") || Contains(ToAsciiLower(command), "chmod 777"))
    ensures Classify(command) == SAFE <==>
      (forall i :: 0 <= i < |RISKY_PATTERNS| ==> !Contains(ToAsciiLower(command), RISKY_PATTERNS[i]))
      && !Contains(ToAsciiLower(command), "sudo") && !Contains(ToAsciiLower(command), "chmod 777")
  {
  }

  /** `normalize_safety`: a raw label that is one of the three once trimmed
      and lower-cased is kept in that form, whatever the command; any other
      label is replaced by the classification of the command. */
  function NormalizeSafety(raw: string, command: string): (r: string)
    ensures IsSafetyLabel(r)
    ensures IsSafetyLabel(ToAsciiLower(Trim(raw))) ==> r == ToAsciiLower(Trim(raw))
    ensures !IsSafetyLabel(ToAsciiLower(Trim(raw))) ==> r == Classify(command)
  {
    var norm := ToAsciiLower(Trim(raw));
    if norm == SAFE || norm == CAUTION || norm == RISKY then norm
    else Classify(command)
  }

  lemma ClassifyCases(c: string)
    requires ToAsciiLower(c) == c
    ensures ContainsAny(c, RISKY_PATTERNS) ==> Classify(c) == RISKY
    ensures !ContainsAny(c, RISKY_PATTERNS) && (Contains(c, "sudo") || Contains(c, "chmod 777")) ==>
      Classify(c) == CAUTION
    ensures !ContainsAny(c, RISKY_PATTERNS) && !Contains(c, "sudo") && !Contains(c, "chmod 777") ==>
      Classify(c) == SAFE
  {
  }

  /** `sudo rm -rf /` is risky, not caution: the destructive patterns are
      checked before `sudo`. */
  lemma RiskyExample(c: string)
    requires c == "sudo rm -rf /"
    ensures Classify(c) == RISKY
  {
    LowerIsSelf(c);
    assert OccursAt(c, RISKY_PATTERNS[0], 5);
    ContainsIff(c, RISKY_PATTERNS[0], 5);
    ClassifyCases(c);
  }

  lemma SafeExample(c: string)
    requires c == "ls -la"
    ensures Classify(c) == SAFE
  {
    assert HasNoUpper(c) && 'r' !in c && 'm' !in c && 'd' !in c && 'h' !in c && 'u' !in c && 'c' !in c;
    SafeWhenAbsent(c);
  }

  /** A lower-case command lacking one character of each pattern is safe. */
  lemma SafeWhenAbsent(c: string)
    requires HasNoUpper(c)
    requires 'r' !in c && 'm' !in c && 'd' !in c && 'h' !in c && 'u' !in c && 'c' !in c
    ensures Classify(c) == SAFE
  {
    LowerIsSelf(c);
    NoRiskyPattern(c, 'r', 'm', 'd', 'h', 'r');
    NotContainedByChar(c, "sudo", 'u');
    NotContainedByChar(c, "chmod 777", 'c');
    ClassifyCases(c);
  }

  /** No risky pattern occurs when each one holds a character (given in
      order) that the string lacks. */
  lemma NoRiskyPattern(c: string, a0: char, a1: char, a2: char, a3: char, a4: char)
    requires a0 in RISKY_PATTERNS[0] && a0 !in c
    requires a1 in RISKY_PATTERNS[1] && a1 !in c
    requires a2 in RISKY_PATTERNS[2] && a2 !in c
    requires a3 in RISKY_PATTERNS[3] && a3 !in c
    requires a4 in RISKY_PATTERNS[4] && a4 !in c
    ensures !ContainsAny(c, RISKY_PATTERNS)
  {
    NotContainedByChar(c, RISKY_PATTERNS[0], a0);
    NotContainedByChar(c, RISKY_PATTERNS[1], a1);
    NotContainedByChar(c, RISKY_PATTERNS[2], a2);
    NotContainedByChar(c, RISKY_PATTERNS[3], a3);
    NotContainedByChar(c, RISKY_PATTERNS[4], a4);
  }

  lemma LowerIsSelf(s: string)
    requires HasNoUpper(s)
    ensures ToAsciiLower(s) == s
  {
    LowerOfLower(s);
  }

  lemma TrimIsSelf(s: string)
    requires s != [] ==> !IsWhitespace(s[0]) && !IsWhitespace(s[|s| - 1])
    ensures Trim(s) == s
  {
    TrimByNoop(s, IsWhitespace);
  }

  /** A lower-case string without surrounding whitespace is its own normal form. */
  lemma NormalFormIsSelf(s: string)
    requires HasNoUpper(s)
    requires s != [] ==> !IsWhitespace(s[0]) && !IsWhitespace(s[|s| - 1])
    ensures ToAsciiLower(Trim(s)) == s
  {
    TrimIsSelf(s);
    LowerIsSelf(s);
  }

  /** A raw label that already is one of the three survives normalisation
      unchanged, whatever the command. */
  lemma LabelIsKept(raw: string, command: string)
    requires IsSafetyLabel(raw)
    ensures NormalizeSafety(raw, command) == raw
  {
    assert HasNoUpper(raw) && !IsWhitespace(raw[0]) && !IsWhitespace(raw[|raw| - 1]);
    NormalFormIsSelf(raw);
  }

  // ---------------------------------------------------------------------
  // Normalising the model's text

  /** `content.trim().trim_matches('`').trim()` */
  function Cleaned(content: string): string {
    Trim(TrimBy(Trim(content), IsBacktick))
  }

  /** The fallback command: the first non-blank line of the cleaned text, trimmed. */
  function FallbackCommand(content: string): string {
    Trim(FirstNonBlank(Lines(Cleaned(content))).GetOr(""))
  }

  /** `parse_model_output`. `structured` is the result of decoding `content`
      as a {command, explanation, safety} record. */
  function ParseModelOutput(content: string, structured: Option<GenerationOutput>): (r: Result<GenerationOutput, AppError>)
    ensures r.Success? ==> IsSafetyLabel(r.value.safety)
    ensures structured.Some? ==> r.Success?
    ensures structured.None? && r.Success? ==> r.value.command != [] && '\n' !in r.value.command
    ensures structured.None? && r.Success? ==> r.value.explanation == PLACEHOLDER_EXPLANATION
    ensures r.Failure? ==> r.error == Message("model returned empty output")
  {
    match structured
    case Some(parsed) =>
      Success(parsed.(safety := NormalizeSafety(parsed.safety, parsed.command)))
    case None =>
      var command := FallbackCommand(content);
      FallbackHasNoLineFeed(content);
      if command == [] then Failure(Message("model returned empty output"))
      else Success(GenerationOutput(command, PLACEHOLDER_EXPLANATION, NormalizeSafety(CAUTION, command)))
  }

  lemma FallbackHasNoLineFeed(content: string)
    ensures '\n' !in FallbackCommand(content)
  {
    var line := FirstNonBlank(Lines(Cleaned(content))).GetOr("");
    TrimByKeepsAbsent(line, IsWhitespace, '\n');
  }

  /** Structured path: command and explanation are returned as decoded
      (an empty command is not rejected), and only the label is rewritten. */
  lemma StructuredPath(content: string, parsed: GenerationOutput)
    ensures var r := ParseModelOutput(content, Some(parsed));
      && r.Success?
      && r.value.command == parsed.command
      && r.value.explanation == parsed.explanation
      && r.value.safety == NormalizeSafety(parsed.safety, parsed.command)
  {
  }

  /** Fallback path: it fails exactly when nothing is left after trimming
      whitespace and backticks. */
  lemma FallbackFailsIffEmpty(content: string)
    ensures ParseModelOutput(content, None).Failure? <==> Cleaned(content) == []
  {
    if Cleaned(content) != [] {
      FallbackCommandIsFirstLine(content);
    } else {
      NothingLeftFails(content);
    }
  }

  lemma NothingLeftFails(content: string)
    requires Cleaned(content) == []
    ensures ParseModelOutput(content, None).Failure?
  {
    NothingLeftNoCommand(content);
  }

  lemma NothingLeftNoCommand(content: string)
    requires Cleaned(content) == []
    ensures FallbackCommand(content) == []
  {
    assert Lines([]) == [];
  }

  /** The first line of a trimmed, non-empty text is not blank: its first
      character is not whitespace. */
  lemma FirstLineNotBlank(s: string)
    requires s != [] && !IsWhitespace(s[0])
    ensures !IsBlank(Lines(s)[0])
    ensures FirstNonBlank(Lines(s)) == Some(Lines(s)[0])
  {
    match IndexOf(s, '\n')
    case None =>
    case Some(k) =>
      assert k > 0;
      assert StripCarriageReturn(s[..k])[0] == s[0];
  }

  /** Fallback path: the command is the first line of the cleaned text,
      trimmed; the explanation is the placeholder and the label is always
      "caution" (the literal label is normalised, not the command). */
  lemma FallbackCommandIsFirstLine(content: string)
    requires Cleaned(content) != []
    ensures ParseModelOutput(content, None) ==
      Success(GenerationOutput(Trim(Lines(Cleaned(content))[0]), PLACEHOLDER_EXPLANATION, CAUTION))
  {
    FallbackCommandOf(content);
    LabelIsKept(CAUTION, FallbackCommand(content));
  }

  lemma FallbackCommandOf(content: string)
    requires Cleaned(content) != []
    ensures FallbackCommand(content) == Trim(Lines(Cleaned(content))[0]) != []
  {
    var cleaned := Cleaned(content);
    TrimShape(TrimBy(Trim(content), IsBacktick));
    FirstLineNotBlank(cleaned);
    TrimShape(Lines(cleaned)[0]);
  }

  /** A one-line command fenced by a bare code fence is what the fallback
      path returns, labelled caution: `"```\n" + command + "\n```"` parses
      to `command` when the command has no line feed and neither starts nor
      ends with whitespace or a backtick. */
  lemma FencedReply(command: string)
    requires command != [] && '\n' !in command
    requires !IsWhitespace(command[0]) && !IsWhitespace(command[|command| - 1])
    requires command[0] != '`'
    ensures ParseModelOutput("```\n" + command + "\n```", None) ==
      Success(GenerationOutput(command, PLACEHOLDER_EXPLANATION, CAUTION))
  {
    var content := "```\n" + command + "\n```";
    FenceIsCleaned(command);
    SingleLine(command);
    TrimIsSelf(command);
    FallbackCommandIsFirstLine(content);
  }

  /** A reply of `ls -la` in a bare code fence gives `ls -la`, labelled
      caution although the heuristic would call the command safe. */
  lemma FencedReplyExample(content: string)
    requires content == "```\nls -la\n```"
    ensures ParseModelOutput(content, None) ==
      Success(GenerationOutput("ls -la", PLACEHOLDER_EXPLANATION, CAUTION))
  {
    assert content == "```\n" + "ls -la" + "\n```";
    FencedReply("ls -la");
  }

  /** Trimming whitespace, then the fence's backticks, then whitespace,
      leaves the fenced command. */
  lemma FenceIsCleaned(command: string)
    requires command != [] && command[0] != '`'
    requires !IsWhitespace(command[0]) && !IsWhitespace(command[|command| - 1])
    ensures Cleaned("```\n" + command + "\n```") == command
  {
    var content := "```\n" + command + "\n```";
    var inner := "\n" + command + "\n";
    assert content == "```" + inner + "```";
    TrimIsSelf(content);
    TrimByWrapped("```", inner, "```", IsBacktick);
    TrimByWrapped("\n", command, "\n", IsWhitespace);
  }

  /** A string without line feeds is one line. */
  lemma SingleLine(s: string)
    requires s != [] && '\n' !in s && s[|s| - 1] != '\r'
    ensures Lines(s) == [s]
  {
  }

  // ---------------------------------------------------------------------
  // Clients, requests and envelopes

  /** One client per provider. */
  datatype Client = OpenAIClient | OpenRouterClient | VercelClient | AnthropicClient

  /** The three variants of the chat-completion contract. */
  datatype OpenAILikeMode = OpenAIMode | OpenRouterMode | VercelMode

  /** The exhaustive match of `generate_once`. */
  function ClientFor(p: Provider): Client {
    match p
    case Openai => OpenAIClient
    case Openrouter => OpenRouterClient
    case Vercel => VercelClient
    case Anthropic => AnthropicClient
  }

  /** The provider a client serves. */
  function ServedProvider(c: Client): Provider {
    match c
    case OpenAIClient => Openai
    case OpenRouterClient => Openrouter
    case VercelClient => Vercel
    case AnthropicClient => Anthropic
  }

  /** The dispatch is a bijection: each provider selects exactly one client,
      and each client is selected by exactly one provider. */
  lemma DispatchIsBijective(p: Provider, c: Client)
    ensures ClientFor(p) == c <==> ServedProvider(c) == p
  {
  }

  datatype Header = Header(name: string, value: string)
  datatype ChatMessage = ChatMessage(role: string, content: string)

  /** The JSON body fields; `maxTokens` and `system` are sent only by the Anthropic client. */
  datatype RequestBody = RequestBody(
    model: string,
    maxTokens: Option<nat>,
    temperature: int,
    system: Option<string>,
    messages: seq<ChatMessage>)

  datatype HttpRequest = HttpRequest(url: string, headers: seq<Header>, body: RequestBody)

  /** `format!("{}{path}", base_url.trim_end_matches('/'))` */
  function Endpoint(baseUrl: string, path: string): (url: string)
    ensures EndsWith(url, path)
    ensures StartsWith(baseUrl, url[..|url| - |path|])
    ensures |url| > |path| ==> url[|url| - |path| - 1] != '/'
    ensures forall i :: |url| - |path| <= i < |baseUrl| ==> baseUrl[i] == '/'
  {
    var base := TrimEndBy(baseUrl, IsSlash);
    TrimEndByPrefix(baseUrl, IsSlash);
    TrimEndByDrops(baseUrl, IsSlash);
    assert (base + path)[..|base|] == base;
    base + path
  }

  /** Trailing slashes on the base URL do not change the endpoint. */
  lemma EndpointIgnoresTrailingSlash(baseUrl: string, path: string)
    ensures Endpoint(baseUrl + "/", path) == Endpoint(baseUrl, path)
  {
    var s := baseUrl + "/";
    assert s[..|s| - 1] == baseUrl;
  }

  function UserContent(prompt: string): string {
    "User request: " + prompt
  }

  /** The request of `AnthropicClient::generate`. */
  function AnthropicRequest(config: AppConfig, prompt: string): (req: HttpRequest)
    ensures Header("x-api-key", config.apiKey) in req.headers
    ensures forall h :: h in req.headers ==> h.name != "Authorization"
  {
    HttpRequest(
      Endpoint(config.baseUrl, "/v1/messages"),
      [Header("Content-Type", "application/json"),
       Header("x-api-key", config.apiKey),
       Header("anthropic-version", "2023-06-01")],
      RequestBody(config.model, Some(300), 0, Some(SYSTEM_PROMPT),
        [ChatMessage("user", UserContent(prompt))]))
  }

  /** The headers a chat-completion mode adds after the bearer token. */
  function ModeHeaders(mode: OpenAILikeMode, apiKey: string): seq<Header> {
    match mode
    case OpenAIMode => []
    case OpenRouterMode =>
      [Header("HTTP-Referer", "https://github.com/danielhostetler/baishify"), Header("X-Title", "baishify")]
    case VercelMode => [Header("X-Vercel-AI-Gateway-Api-Key", apiKey)]
  }

  /** The request of `openai_like`. */
  function ChatRequest(config: AppConfig, prompt: string, mode: OpenAILikeMode): (req: HttpRequest)
    ensures Header("Authorization", "Bearer " + config.apiKey) in req.headers
    ensures req.body.maxTokens.None? && req.body.temperature == 0
  {
    HttpRequest(
      Endpoint(config.baseUrl, "/chat/completions"),
      [Header("Content-Type", "application/json"),
       Header("Authorization", "Bearer " + config.apiKey)] + ModeHeaders(mode, config.apiKey),
      RequestBody(config.model, None, 0, None,
        [ChatMessage("system", SYSTEM_PROMPT), ChatMessage("user", UserContent(prompt))]))
  }

  function ModeOf(c: Client): OpenAILikeMode
    requires c != AnthropicClient
  {
    match c
    case OpenAIClient => OpenAIMode
    case OpenRouterClient => OpenRouterMode
    case VercelClient => VercelMode
  }

  /** The request a client sends. */
  function RequestFor(c: Client, config: AppConfig, prompt: string): HttpRequest {
    if c == AnthropicClient then AnthropicRequest(config, prompt)
    else ChatRequest(config, prompt, ModeOf(c))
  }

  /** Each provider posts to its base URL without trailing '/', followed by
      "/v1/messages" for Anthropic and "/chat/completions" for the others,
      at temperature 0 with the prompt as the user message. */
  lemma RequestShape(config: AppConfig, prompt: string)
    ensures var req := RequestFor(ClientFor(config.provider), config, prompt);
      && req.url == TrimEndBy(config.baseUrl, IsSlash)
           + (if config.provider == Anthropic then "/v1/messages" else "/chat/completions")
      && req.body.model == config.model
      && req.body.temperature == 0
      && req.body.messages[|req.body.messages| - 1] == ChatMessage("user", UserContent(prompt))
  {
  }

  /** `choices[i].message.content` */
  datatype ChatChoice = ChatChoice(content: string)
  datatype ChatResponse = ChatResponse(choices: seq<ChatChoice>)

  /** One typed block of an Anthropic reply; `text` is absent for non-text blocks. */
  datatype ContentBlock = ContentBlock(typeName: string, text: Option<string>)
  datatype MessagesResponse = MessagesResponse(content: seq<ContentBlock>)

  /** The HTTP round trip with the reply decoded into its envelope. */
  datatype Http = Http(
    chat: HttpRequest -> Result<ChatResponse, AppError>,
    messages: HttpRequest -> Result<MessagesResponse, AppError>)

  /** The model text of a chat-completion reply: the first choice. */
  function FirstChoiceContent(choices: seq<ChatChoice>): (r: Result<string, AppError>)
    ensures r.Success? <==> choices != []
    ensures r.Success? ==> r.value == choices[0].content
    ensures r.Failure? ==> r.error == Message("no choices returned")
  {
    if choices == [] then Failure(Message("no choices returned")) else Success(choices[0].content)
  }

  /** The index of the first block whose type is "text". */
  function FirstTextIndex(blocks: seq<ContentBlock>): (r: Option<nat>)
    ensures r.Some? ==> r.value < |blocks| && blocks[r.value].typeName == "text"
    ensures r.Some? ==> forall j :: 0 <= j < r.value ==> blocks[j].typeName != "text"
    ensures r.None? ==> forall j :: 0 <= j < |blocks| ==> blocks[j].typeName != "text"
  {
    if blocks == [] then None
    else if blocks[0].typeName == "text" then Some(0)
    else match FirstTextIndex(blocks[1..])
      case None => None
      case Some(k) => Some(k + 1)
  }

  /** The model text of an Anthropic reply: the text of the first "text"
      block; a reply without one, or whose first one has no text, fails. */
  function AnthropicText(blocks: seq<ContentBlock>): (r: Result<string, AppError>)
    ensures r.Success? <==> FirstTextIndex(blocks).Some? && blocks[FirstTextIndex(blocks).value].text.Some?
    ensures r.Success? ==> r.value == blocks[FirstTextIndex(blocks).value].text.value
    ensures r.Failure? ==> r.error == Message("no text content returned")
  {
    match FirstTextIndex(blocks)
    case None => Failure(Message("no text content returned"))
    case Some(i) =>
      match blocks[i].text
      case None => Failure(Message("no text content returned"))
      case Some(t) => Success(t)
  }

  /** The text the client extracts from its reply, or the error of the
      round trip or of the envelope. */
  function ReplyText(c: Client, http: Http, req: HttpRequest): Result<string, AppError> {
    if c == AnthropicClient then
      match http.messages(req)
      case Failure(e) => Failure(e)
      case Success(resp) => AnthropicText(resp.content)
    else
      match http.chat(req)
      case Failure(e) => Failure(e)
      case Success(resp) => FirstChoiceContent(resp.choices)
  }

  /** `ProviderClient::generate` of client `c`. */
  function Generate(c: Client, http: Http, decode: string -> Option<GenerationOutput>,
                    config: AppConfig, prompt: string): (r: Result<GenerationOutput, AppError>)
    ensures r.Success? ==> IsSafetyLabel(r.value.safety)
  {
    match ReplyText(c, http, RequestFor(c, config, prompt))
    case Failure(e) => Failure(e)
    case Success(text) => ParseModelOutput(text, decode(text))
  }

  /** `generate_once`: the configured provider's client. */
  function GenerateOnce(http: Http, decode: string -> Option<GenerationOutput>,
                        config: AppConfig, prompt: string): (r: Result<GenerationOutput, AppError>)
    ensures r.Success? ==> IsSafetyLabel(r.value.safety)
  {
    Generate(ClientFor(config.provider), http, decode, config, prompt)
  }

  /** End to end for a chat-completion provider: a failed round trip is
      returned unchanged, a reply without choices fails with "no choices
      returned", and otherwise the first choice's content is normalised by
      `ParseModelOutput`. */
  lemma ChatOutcome(http: Http, decode: string -> Option<GenerationOutput>,
                    config: AppConfig, prompt: string)
    requires config.provider != Anthropic
    ensures var reply := http.chat(ChatRequest(config, prompt, ModeOf(ClientFor(config.provider))));
      var r := GenerateOnce(http, decode, config, prompt);
      && (reply.Failure? ==> r == Failure(reply.error))
      && (reply.Success? && reply.value.choices == [] ==> r == Failure(Message("no choices returned")))
      && (reply.Success? && reply.value.choices != [] ==>
            var t := reply.value.choices[0].content; r == ParseModelOutput(t, decode(t)))
  {
  }

  /** End to end for Anthropic: a failed round trip is returned unchanged; a
      reply whose blocks include no "text" block, or whose first "text"
      block (at `i`) has no text, fails with "no text content returned";
      otherwise that block's text is normalised by `ParseModelOutput`. */
  lemma AnthropicOutcome(http: Http, decode: string -> Option<GenerationOutput>,
                         config: AppConfig, prompt: string, i: nat)
    requires config.provider == Anthropic
    ensures var reply := http.messages(AnthropicRequest(config, prompt));
      var r := GenerateOnce(http, decode, config, prompt);
      && (reply.Failure? ==> r == Failure(reply.error))
      && (reply.Success? && (forall j :: 0 <= j < |reply.value.content| ==> reply.value.content[j].typeName != "text") ==>
            r == Failure(Message("no text content returned")))
      && (reply.Success? && i < |reply.value.content| && reply.value.content[i].typeName == "text" &&
          (forall j :: 0 <= j < i ==> reply.value.content[j].typeName != "text") ==>
            match reply.value.content[i].text
            case None => r == Failure(Message("no text content returned"))
            case Some(t) => r == ParseModelOutput(t, decode(t)))
  {
    var reply := http.messages(AnthropicRequest(config, prompt));
    if reply.Success? {
      var blocks := reply.value.content;
      if i < |blocks| && blocks[i].typeName == "text" && (forall j :: 0 <= j < i ==> blocks[j].typeName != "text") {
        FirstTextIndexIs(blocks, i);
      }
    }
  }

  /** A "text" block with none before it is the one `FirstTextIndex` finds. */
  lemma FirstTextIndexIs(blocks: seq<ContentBlock>, i: nat)
    requires i < |blocks| && blocks[i].typeName == "text"
    requires forall j :: 0 <= j < i ==> blocks[j].typeName != "text"
    ensures FirstTextIndex(blocks) == Some(i)
  {
  }
}
