/**
 * The terminal front end (src/ui.rs): the keystroke dispatch of the review
 * loop, the loader shown while a reply is awaited, and the output of a
 * non-interactive run. Keys, clock readings and channel events are inputs;
 * the generator and the clipboard are parameters.
 */
module Ui {
  import opened Wrappers
  import opened Text
  import opened Errors
  import opened Types

  // ---------------------------------------------------------------------
  // Review loop

  /** A key as the terminal reports it; `Other` stands for every key that is
      neither Enter nor a character. */
  datatype Key = Enter | Char(c: char) | Other

  /** What one key press in review leads to. */
  datatype Action =
    | Stay(message: string)
    | Regenerate(notice: Option<string>)
    | Quit
    | WriteFile(path: string, contents: string)
    | Run(command: string)

  const EMPTY_COMMAND := "Generated command was empty."
  const REGENERATING := "Trying a different phrasing path..."
  const COPIED := "Copied to clipboard."
  const COPY_UNSUPPORTED := "Copy not supported on this system."
  const UNKNOWN_KEY := "Unknown key. Press Enter, r, e, c, or q."

  /** `eq_ignore_ascii_case` against a lower-case letter. */
  predicate IsLetter(c: char, letter: char) {
    LowerChar(c) == letter
  }

  /** The dispatch of one key in review of a reply whose command and
      explanation, trimmed, are `cmd` and `explanation`; `copyWorks` is
      whether the system clipboard accepted the text. */
  function Dispatch(config: AppConfig, cmd: string, explanation: string, key: Key, copyWorks: bool): Action {
    match key
    case Enter =>
      if cmd == [] then Stay(EMPTY_COMMAND)
      else if config.outputFile.Some? then WriteFile(config.outputFile.value, cmd + "\n")
      else Run(cmd)
    case Char(c) =>
      if IsLetter(c, 'r') then Regenerate(if config.noFun then None else Some(REGENERATING))
      else if IsLetter(c, 'e') then Stay(explanation)
      else if IsLetter(c, 'c') then Stay(if copyWorks then COPIED else COPY_UNSUPPORTED)
      else if IsLetter(c, 'q') then Quit
      else Stay(UNKNOWN_KEY)
    case Other => Stay(UNKNOWN_KEY)
  }

  /** The handling of one key press for the reply `output`. The command is
      trimmed on Enter and the explanation on `e`; trimming is pure, so
      handing both over trimmed is the same. */
  function OnKey(config: AppConfig, output: GenerationOutput, key: Key, copyWorks: bool): Action {
    Dispatch(config, Trim(output.command), Trim(output.explanation), key, copyWorks)
  }

  /** Enter accepts a non-empty command, writing it to the output file when
      one is configured and running it otherwise; only `r` regenerates (and
      says so unless `--no-fun`), only `q` quits, and any other key stays. */
  lemma DispatchCases(config: AppConfig, cmd: string, explanation: string, key: Key, copyWorks: bool)
    ensures var r := Dispatch(config, cmd, explanation, key, copyWorks);
      && (key == Enter && cmd == [] ==> r == Stay(EMPTY_COMMAND))
      && (key == Enter && cmd != [] && config.outputFile.Some? ==> r == WriteFile(config.outputFile.value, cmd + "\n"))
      && (key == Enter && cmd != [] && config.outputFile.None? ==> r == Run(cmd))
      && (r.Regenerate? <==> key.Char? && IsLetter(key.c, 'r'))
      && (r.Regenerate? ==> (r.notice.None? <==> config.noFun))
      && (r == Quit <==> key.Char? && IsLetter(key.c, 'q'))
      && ((r.WriteFile? || r.Run?) ==> key == Enter)
      && (key.Other? ==> r == Stay(UNKNOWN_KEY))
  {
  }

  /** Letters are matched without regard to ASCII case. */
  lemma DispatchIgnoresCase(config: AppConfig, cmd: string, explanation: string, c: char, copyWorks: bool)
    ensures Dispatch(config, cmd, explanation, Char(c), copyWorks)
      == Dispatch(config, cmd, explanation, Char(LowerChar(c)), copyWorks)
  {
  }

  /** `e` shows the trimmed explanation and `c` reports the clipboard's
      answer; neither leaves review. */
  lemma ExplainAndCopyStay(config: AppConfig, output: GenerationOutput, copyWorks: bool)
    ensures OnKey(config, output, Char('e'), copyWorks) == Stay(Trim(output.explanation))
    ensures OnKey(config, output, Char('E'), copyWorks) == Stay(Trim(output.explanation))
    ensures OnKey(config, output, Char('c'), copyWorks).Stay?
    ensures OnKey(config, output, Char('C'), copyWorks).message == if copyWorks then COPIED else COPY_UNSUPPORTED
  {
  }

  /** How a review session ends. `InputExhausted` is the model's own: the
      key sequence ran out before the session ended. */
  datatype SessionEnd =
    | Quitted
    | WroteFile(path: string, contents: string)
    | RanCommand(command: string)
    | Errored(error: AppError)
    | InputExhausted

  /** The reply source: the result of generating for a prompt on a given
      attempt (0 for the first, 1 after the first regenerate, ...). */
  type Generator = (string, nat) -> Result<GenerationOutput, AppError>

  /** A session from the generation of attempt `attempt` on. */
  function Session(config: AppConfig, prompt: string, generate: Generator, attempt: nat,
                   keys: seq<Key>, copyWorks: bool): SessionEnd
    decreases |keys|, 1
  {
    match generate(prompt, attempt)
    case Failure(e) => Errored(e)
    case Success(output) =>
      Review(config, prompt, generate, attempt, Trim(output.command), Trim(output.explanation), keys, copyWorks)
  }

  /** A session in review of the reply of attempt `attempt`, whose command
      and explanation, trimmed, are `cmd` and `explanation`. */
  function Review(config: AppConfig, prompt: string, generate: Generator, attempt: nat,
                  cmd: string, explanation: string, keys: seq<Key>, copyWorks: bool): SessionEnd
    decreases |keys|, 0
  {
    if keys == [] then InputExhausted
    else match Dispatch(config, cmd, explanation, keys[0], copyWorks)
      case Stay(_) => Review(config, prompt, generate, attempt, cmd, explanation, keys[1..], copyWorks)
      case Regenerate(_) => Session(config, prompt, generate, attempt + 1, keys[1..], copyWorks)
      case Quit => Quitted
      case WriteFile(path, contents) => WroteFile(path, contents)
      case Run(command) => RanCommand(command)
  }

  /** `run_interactive`: generate, then read keys until one ends review;
      a regenerate generates again for the same prompt. */
  method RunInteractive(config: AppConfig, prompt: string, generate: Generator,
                        keys: seq<Key>, copyWorks: bool) returns (r: SessionEnd)
    ensures r == Session(config, prompt, generate, 0, keys, copyWorks)
  {
    var attempt := 0;
    var i := 0;
    while true
      invariant i <= |keys|
      invariant Session(config, prompt, generate, 0, keys, copyWorks)
        == Session(config, prompt, generate, attempt, keys[i..], copyWorks)
      decreases |keys| - i
    {
      var reply := generate(prompt, attempt);
      if reply.Failure? {
        return Errored(reply.error);
      }
      var ended, next := ReviewKeys(config, prompt, generate, attempt, reply.value, keys, i, copyWorks);
      if ended.Some? {
        return ended.value;
      }
      i := next;
      attempt := attempt + 1;
    }
  }

  /** The inner loop of `run_interactive`: read keys from `start` on until
      one ends review. `ended` is how the session ended, or None when a
      regenerate asked for the next attempt from key `next` on. */
  method ReviewKeys(config: AppConfig, prompt: string, generate: Generator, attempt: nat,
                    output: GenerationOutput, keys: seq<Key>, start: nat, copyWorks: bool)
    returns (ended: Option<SessionEnd>, next: nat)
    requires start <= |keys|
    ensures ended.Some? ==> ended.value == Review(config, prompt, generate, attempt,
      Trim(output.command), Trim(output.explanation), keys[start..], copyWorks)
    ensures ended.None? ==> start < next <= |keys|
    ensures ended.None? ==>
      Review(config, prompt, generate, attempt, Trim(output.command), Trim(output.explanation), keys[start..], copyWorks)
        == Session(config, prompt, generate, attempt + 1, keys[next..], copyWorks)
  {
    ghost var cmd, explanation := Trim(output.command), Trim(output.explanation);
    var i := start;
    while true
      invariant start <= i <= |keys|
      invariant Review(config, prompt, generate, attempt, cmd, explanation, keys[start..], copyWorks)
        == Review(config, prompt, generate, attempt, cmd, explanation, keys[i..], copyWorks)
      decreases |keys| - i
    {
      if i == |keys| {
        return Some(InputExhausted), i;
      }
      var action := OnKey(config, output, keys[i], copyWorks);
      ReviewStep(config, prompt, generate, attempt, cmd, explanation, keys, i, copyWorks);
      match action {
        case Stay(_) =>
        case Regenerate(_) =>
          return None, i + 1;
        case Quit =>
          return Some(Quitted), i;
        case WriteFile(path, contents) =>
          return Some(WroteFile(path, contents)), i;
        case Run(command) =>
          return Some(RanCommand(command)), i;
      }
      i := i + 1;
    }
  }

  /** Review of the keys from `i` on, after the key at `i`. */
  lemma ReviewStep(config: AppConfig, prompt: string, generate: Generator, attempt: nat,
                   cmd: string, explanation: string, keys: seq<Key>, i: nat, copyWorks: bool)
    requires i < |keys|
    ensures var here := Review(config, prompt, generate, attempt, cmd, explanation, keys[i..], copyWorks);
      var action := Dispatch(config, cmd, explanation, keys[i], copyWorks);
      && (action.Stay? ==> here == Review(config, prompt, generate, attempt, cmd, explanation, keys[i + 1..], copyWorks))
      && (action.Regenerate? ==> here == Session(config, prompt, generate, attempt + 1, keys[i + 1..], copyWorks))
      && (action.Quit? ==> here == Quitted)
      && (action.WriteFile? ==> here == WroteFile(action.path, action.contents))
      && (action.Run? ==> here == RanCommand(action.command))
  {
    assert keys[i..][1..] == keys[i + 1..];
  }

  /** A command fit to run or write: non-empty, with no whitespace at
      either end. */
  predicate TrimmedCommand(c: string) {
    c != [] && !IsWhitespace(c[0]) && !IsWhitespace(c[|c| - 1])
  }

  /** Such a command is exactly what `trim` leaves of a non-blank text. */
  lemma TrimmedCommandIff(c: string)
    ensures TrimmedCommand(c) <==> c != [] && Trim(c) == c
  {
    TrimShape(c);
    if TrimmedCommand(c) {
      TrimByNoop(c, IsWhitespace);
    }
  }

  /** What a session may do to the system: run a trimmed command only when
      no output file is configured, or write one, with a line feed, to the
      configured output file. */
  predicate SoundEnd(config: AppConfig, r: SessionEnd) {
    && (r.RanCommand? ==> config.outputFile.None? && TrimmedCommand(r.command))
    && (r.WroteFile? ==> config.outputFile == Some(r.path) && r.contents != []
                         && r.contents[|r.contents| - 1] == '\n'
                         && TrimmedCommand(r.contents[..|r.contents| - 1]))
  }

  /** The effects one key can ask for, in review of a reply whose trimmed
      command is `cmd`. */
  lemma KeyEffects(config: AppConfig, cmd: string, explanation: string, key: Key, copyWorks: bool)
    requires cmd == [] || TrimmedCommand(cmd)
    ensures var a := Dispatch(config, cmd, explanation, key, copyWorks);
      && (a.Run? ==> SoundEnd(config, RanCommand(a.command)))
      && (a.WriteFile? ==> SoundEnd(config, WroteFile(a.path, a.contents)))
  {
    if key == Enter && cmd != [] {
      LineOfCommand(cmd);
    }
  }

  /** A trimmed command with a line feed appended is what `SoundEnd` asks
      of a file's contents. */
  lemma LineOfCommand(cmd: string)
    requires TrimmedCommand(cmd)
    ensures var contents := cmd + "\n";
      contents != [] && contents[|contents| - 1] == '\n' && TrimmedCommand(contents[..|contents| - 1])
  {
    var contents := cmd + "\n";
    assert contents[..|contents| - 1] == cmd;
  }

  /** Whatever a session writes or runs is the non-empty, trimmed command of
      one of its replies: a file gets it with one line feed appended, and
      only when an output file is configured; otherwise it is run. */
  lemma {:induction false} SessionEffects(config: AppConfig, prompt: string, generate: Generator, attempt: nat,
                                          keys: seq<Key>, copyWorks: bool)
    ensures SoundEnd(config, Session(config, prompt, generate, attempt, keys, copyWorks))
    decreases |keys|, 2
  {
    match generate(prompt, attempt)
    case Failure(_) =>
    case Success(output) => ReplyEffects(config, prompt, generate, attempt, output, keys, copyWorks);
  }

  /** `SessionEffects`, once the reply `output` has come. */
  lemma {:induction false} ReplyEffects(config: AppConfig, prompt: string, generate: Generator, attempt: nat,
                                        output: GenerationOutput, keys: seq<Key>, copyWorks: bool)
    ensures SoundEnd(config, Review(config, prompt, generate, attempt,
      Trim(output.command), Trim(output.explanation), keys, copyWorks))
    decreases |keys|, 1
  {
    TrimShape(output.command);
    ReviewEffects(config, prompt, generate, attempt, Trim(output.command), Trim(output.explanation), keys, copyWorks);
  }

  /** `SessionEffects`, for a session in review of a reply whose trimmed
      command is `cmd`. */
  lemma {:induction false} ReviewEffects(config: AppConfig, prompt: string, generate: Generator, attempt: nat,
                                         cmd: string, explanation: string, keys: seq<Key>, copyWorks: bool)
    requires cmd == [] || TrimmedCommand(cmd)
    ensures SoundEnd(config, Review(config, prompt, generate, attempt, cmd, explanation, keys, copyWorks))
    decreases |keys|, 0
  {
    if keys != [] {
      KeyEffects(config, cmd, explanation, keys[0], copyWorks);
      match Dispatch(config, cmd, explanation, keys[0], copyWorks)
      case Stay(_) => ReviewEffects(config, prompt, generate, attempt, cmd, explanation, keys[1..], copyWorks);
      case Regenerate(_) => SessionEffects(config, prompt, generate, attempt + 1, keys[1..], copyWorks);
      case Quit =>
      case WriteFile(_, _) =>
      case Run(_) =>
    }
  }

  /** `q` ends the session at once, whatever keys follow. */
  lemma QuitEndsSession(config: AppConfig, prompt: string, generate: Generator, attempt: nat,
                        cmd: string, explanation: string, keys: seq<Key>, copyWorks: bool)
    requires keys != [] && (keys[0] == Char('q') || keys[0] == Char('Q'))
    ensures Review(config, prompt, generate, attempt, cmd, explanation, keys, copyWorks) == Quitted
  {
  }

  /** `r` generates again for the unchanged prompt, as the next attempt, and
      continues with the keys that follow. */
  lemma RegenerateKeepsPrompt(config: AppConfig, prompt: string, generate: Generator, attempt: nat,
                              cmd: string, explanation: string, keys: seq<Key>, copyWorks: bool)
    requires keys != [] && keys[0].Char? && IsLetter(keys[0].c, 'r')
    ensures Review(config, prompt, generate, attempt, cmd, explanation, keys, copyWorks)
      == Session(config, prompt, generate, attempt + 1, keys[1..], copyWorks)
  {
  }

  /** Keys that keep review open are skipped over: review continues on the
      same reply with the remaining keys. */
  lemma StayKeepsReply(config: AppConfig, prompt: string, generate: Generator, attempt: nat,
                       cmd: string, explanation: string, keys: seq<Key>, copyWorks: bool)
    requires keys != [] && Dispatch(config, cmd, explanation, keys[0], copyWorks).Stay?
    ensures Review(config, prompt, generate, attempt, cmd, explanation, keys, copyWorks)
      == Review(config, prompt, generate, attempt, cmd, explanation, keys[1..], copyWorks)
  {
  }

  // ---------------------------------------------------------------------
  // Loader

  const PHASES: seq<string> := ["thinking", "drafting", "refining", "finalizing"]
  const SPINNER: seq<char> := ['|', '/', '-', '\\']
  /** The phase label moves on once this many milliseconds have passed since
      it last did. */
  const PHASE_MS: nat := 850
  const WORKER_DISCONNECTED := "worker disconnected"

  /** One wait on the reply channel: a timeout (with the monotonic clock's
      reading in milliseconds), the worker's result, or a closed channel. */
  datatype Poll = Timeout(now: nat) | Received(result: Result<GenerationOutput, AppError>) | Disconnected

  /** `spin_idx`, `phase_idx` and `last_phase_tick`. */
  datatype LoaderState = LoaderState(spin: nat, phase: nat, lastTick: nat)

  predicate InRange(st: LoaderState) {
    st.spin < |SPINNER| && st.phase < |PHASES|
  }

  /** The state before the first wait, at clock reading `start`. */
  function Initial(start: nat): (st: LoaderState)
    ensures InRange(st)
  {
    LoaderState(0, 0, start)
  }

  /** `Instant::elapsed`, which never goes below zero. */
  function Elapsed(since: nat, now: nat): nat {
    if now >= since then now - since else 0
  }

  /** One timeout: the spinner always advances; the phase advances, and its
      tick is reset, only once `PHASE_MS` have passed. */
  function Tick(st: LoaderState, now: nat): (r: LoaderState)
    requires InRange(st)
    ensures InRange(r)
    ensures r.spin == (st.spin + 1) % 4
    ensures Elapsed(st.lastTick, now) >= PHASE_MS ==> r.phase == (st.phase + 1) % 4 && r.lastTick == now
    ensures Elapsed(st.lastTick, now) < PHASE_MS ==> r.phase == st.phase && r.lastTick == st.lastTick
  {
    var spin := (st.spin + 1) % |SPINNER|;
    if Elapsed(st.lastTick, now) >= PHASE_MS then LoaderState(spin, (st.phase + 1) % |PHASES|, now)
    else LoaderState(spin, st.phase, st.lastTick)
  }

  /** The loader line drawn for a state. */
  function Frame(st: LoaderState): string
    requires InRange(st)
  {
    [SPINNER[st.spin]] + " " + PHASES[st.phase] + "..."
  }

  /** The first line is drawn before any wait. */
  lemma FirstFrame(start: nat)
    ensures Frame(Initial(start)) == "| thinking..."
  {
  }

  /** How the waits end, and the lines drawn on the way. `result` is None
      when the polls run out first. */
  datatype LoaderRun = LoaderRun(result: Option<Result<GenerationOutput, AppError>>, frames: seq<string>)

  /** The loader from state `st` over the remaining polls. */
  function Loader(st: LoaderState, polls: seq<Poll>): (r: LoaderRun)
    requires InRange(st)
    ensures |r.frames| <= |polls|
    decreases |polls|
  {
    if polls == [] then LoaderRun(None, [])
    else match polls[0]
      case Received(result) => LoaderRun(Some(result), [])
      case Disconnected => LoaderRun(Some(Failure(Message(WORKER_DISCONNECTED))), [])
      case Timeout(now) =>
        var next := Tick(st, now);
        var rest := Loader(next, polls[1..]);
        LoaderRun(rest.result, [Frame(next)] + rest.frames)
  }

  /** `generate_with_loader`, with the worker's channel given as the
      sequence of what each wait returns. */
  method GenerateWithLoader(start: nat, polls: seq<Poll>)
    returns (r: Option<Result<GenerationOutput, AppError>>, frames: seq<string>)
    ensures r == Loader(Initial(start), polls).result
    ensures frames == [Frame(Initial(start))] + Loader(Initial(start), polls).frames
  {
    var phaseIdx: nat, spinIdx: nat, lastPhaseTick: nat := 0, 0, start;
    frames := [Frame(LoaderState(spinIdx, phaseIdx, lastPhaseTick))];
    var i := 0;
    while i < |polls|
      invariant i <= |polls|
      invariant InRange(LoaderState(spinIdx, phaseIdx, lastPhaseTick))
      invariant Loader(Initial(start), polls).result
        == Loader(LoaderState(spinIdx, phaseIdx, lastPhaseTick), polls[i..]).result
      invariant [Frame(Initial(start))] + Loader(Initial(start), polls).frames
        == frames + Loader(LoaderState(spinIdx, phaseIdx, lastPhaseTick), polls[i..]).frames
    {
      ghost var st := LoaderState(spinIdx, phaseIdx, lastPhaseTick);
      LoaderAt(st, polls, i);
      match polls[i] {
        case Received(result) =>
          return Some(result), frames;
        case Disconnected =>
          return Some(Failure(Message(WORKER_DISCONNECTED))), frames;
        case Timeout(now) =>
          spinIdx := (spinIdx + 1) % |SPINNER|;
          if Elapsed(lastPhaseTick, now) >= PHASE_MS {
            phaseIdx := (phaseIdx + 1) % |PHASES|;
            lastPhaseTick := now;
          }
          assert LoaderState(spinIdx, phaseIdx, lastPhaseTick) == Tick(st, now);
          ghost var later := Loader(Tick(st, now), polls[i + 1..]).frames;
          assert frames + ([Frame(Tick(st, now))] + later) == frames + [Frame(Tick(st, now))] + later;
          frames := frames + [Frame(LoaderState(spinIdx, phaseIdx, lastPhaseTick))];
      }
      i := i + 1;
    }
    r := None;
  }

  /** The loader at poll `i`, one case per kind of poll. */
  lemma LoaderAt(st: LoaderState, polls: seq<Poll>, i: nat)
    requires InRange(st) && i < |polls|
    ensures polls[i].Received? ==> Loader(st, polls[i..]) == LoaderRun(Some(polls[i].result), [])
    ensures polls[i].Disconnected? ==>
      Loader(st, polls[i..]) == LoaderRun(Some(Failure(Message(WORKER_DISCONNECTED))), [])
    ensures polls[i].Timeout? ==>
      var next := Tick(st, polls[i].now);
      Loader(st, polls[i..]) == LoaderRun(Loader(next, polls[i + 1..]).result, [Frame(next)] + Loader(next, polls[i + 1..]).frames)
  {
    assert polls[i..][1..] == polls[i + 1..];
  }

  /** The state after a run of timeouts at the given clock readings. */
  function Ticks(st: LoaderState, nows: seq<nat>): (r: LoaderState)
    requires InRange(st)
    ensures InRange(r)
    decreases |nows|
  {
    if nows == [] then st else Ticks(Tick(st, nows[0]), nows[1..])
  }

  /** The spinner moves one step per timeout, whatever the clock says. */
  lemma {:induction false} SpinCountsTimeouts(st: LoaderState, nows: seq<nat>)
    requires InRange(st)
    ensures Ticks(st, nows).spin == (st.spin + |nows|) % 4
    decreases |nows|
  {
    if nows != [] {
      SpinCountsTimeouts(Tick(st, nows[0]), nows[1..]);
      assert ((st.spin + 1) % 4 + (|nows| - 1)) % 4 == (st.spin + |nows|) % 4;
    }
  }

  /** While fewer than `PHASE_MS` have passed since the last phase tick, the
      phase label and its tick stay as they are. */
  lemma {:induction false} PhaseHoldsWithinInterval(st: LoaderState, nows: seq<nat>)
    requires InRange(st)
    requires forall k :: 0 <= k < |nows| ==> Elapsed(st.lastTick, nows[k]) < PHASE_MS
    ensures Ticks(st, nows).phase == st.phase && Ticks(st, nows).lastTick == st.lastTick
    decreases |nows|
  {
    if nows != [] {
      assert Elapsed(st.lastTick, nows[0]) < PHASE_MS;
      var next := Tick(st, nows[0]);
      forall k | 0 <= k < |nows[1..]|
        ensures Elapsed(next.lastTick, nows[1..][k]) < PHASE_MS
      {
        assert nows[1..][k] == nows[k + 1];
      }
      PhaseHoldsWithinInterval(next, nows[1..]);
    }
  }

  /** The clock readings of a run of timeouts. */
  function Nows(polls: seq<Poll>): (r: seq<nat>)
    requires forall k :: 0 <= k < |polls| ==> polls[k].Timeout?
    ensures |r| == |polls| && forall k :: 0 <= k < |polls| ==> r[k] == polls[k].now
  {
    seq(|polls|, k requires 0 <= k < |polls| => polls[k].now)
  }

  /** Over timeouts alone, the loader draws one line per timeout, the last
      showing the state after all of them, and has no result yet. */
  lemma {:induction false} TimeoutsOnly(st: LoaderState, polls: seq<Poll>)
    requires InRange(st)
    requires forall k :: 0 <= k < |polls| ==> polls[k].Timeout?
    ensures Loader(st, polls).result.None?
    ensures |Loader(st, polls).frames| == |polls|
    ensures polls != [] ==> Loader(st, polls).frames[|polls| - 1] == Frame(Ticks(st, Nows(polls)))
    decreases |polls|
  {
    if polls != [] {
      var next := Tick(st, polls[0].now);
      TimeoutsOnly(next, polls[1..]);
      assert Nows(polls)[1..] == Nows(polls[1..]);
      if |polls| == 1 {
        assert Nows(polls[1..]) == [];
      }
    }
  }

  /** The first event that is not a timeout decides the result: the
      worker's own result, or "worker disconnected"; one line is drawn per
      timeout before it. */
  lemma {:induction false} FirstEventDecides(st: LoaderState, polls: seq<Poll>, i: nat)
    requires InRange(st)
    requires i < |polls| && !polls[i].Timeout?
    requires forall k :: 0 <= k < i ==> polls[k].Timeout?
    ensures polls[i].Received? ==> Loader(st, polls).result == Some(polls[i].result)
    ensures polls[i].Disconnected? ==> Loader(st, polls).result == Some(Failure(Message(WORKER_DISCONNECTED)))
    ensures |Loader(st, polls).frames| == i
    decreases i
  {
    if i > 0 {
      FirstEventDecides(Tick(st, polls[0].now), polls[1..], i - 1);
    }
  }

  // ---------------------------------------------------------------------
  // Non-interactive output

  /** What a non-interactive run prints: one JSON record on stdout, or the
      command on stdout with, optionally, the explanation on stderr. */
  datatype Emission = JsonLine(payload: JsonOutput) | PlainLines(stderr: Option<string>, stdout: string)

  /** `emit_non_interactive` */
  function EmitNonInteractive(config: AppConfig, output: GenerationOutput): (r: Emission)
    ensures r.JsonLine? <==> config.json
    ensures r.JsonLine? ==> r.payload == JsonOutput(AsStr(config.provider), config.model,
                                                     output.command, output.explanation, output.safety)
    ensures r.PlainLines? ==> r.stdout == Trim(output.command)
    ensures r.PlainLines? ==> (r.stderr.Some? <==> config.explain)
    ensures r.PlainLines? && r.stderr.Some? ==> r.stderr.value == Trim(output.explanation)
  {
    if config.json then
      JsonLine(JsonOutput(AsStr(config.provider), config.model, output.command, output.explanation, output.safety))
    else
      PlainLines(if config.explain then Some(Trim(output.explanation)) else None, Trim(output.command))
  }

  /** Plain output is already trimmed, so it survives a shell's own
      trimming unchanged; JSON output keeps the reply byte for byte. */
  lemma EmissionTrimmed(config: AppConfig, output: GenerationOutput)
    ensures var r := EmitNonInteractive(config, output);
      && (r.PlainLines? ==> Trim(r.stdout) == r.stdout)
      && (r.PlainLines? && r.stderr.Some? ==> Trim(r.stderr.value) == r.stderr.value)
      && (r.JsonLine? ==> r.payload.command == output.command && r.payload.explanation == output.explanation)
  {
    TrimIdempotent(output.command);
    TrimIdempotent(output.explanation);
  }
}
