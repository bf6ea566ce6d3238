/**
 * Installing the `b` shell function (src/shell_integration.rs): the wrapper
 * block delimited by two marker lines, the splice that inserts or replaces
 * it in a shell profile, and the rule that the profile is written only when
 * the splice changed it.
 *
 * Profile contents are strings handed in and out; reading and writing the
 * file and locating the home directory are parameters of `Install`.
 * Indices are counted in characters where the source counts bytes; the
 * splice only ever cuts at the start or end of an ASCII marker, so both
 * count the same cuts.
 *
 * The splice is stated for any pair of markers (`Splice`) and used with
 * the program's two constants (`Upsert`); its properties are proved once,
 * for every pair that meets the few conditions each lemma names.
 */
module ShellIntegration {
  import opened Wrappers
  import opened Text
  import opened Errors
  import opened ProfileSplice

  const BEGIN_MARKER := "# >>> baishify integration >>>"
  const END_MARKER := "# <<< baishify integration <<<"

  datatype ShellKind = Bash | Zsh

  /** `ShellKind::as_str` */
  function AsStr(shell: ShellKind): string {
    match shell
    case Bash => "bash"
    case Zsh => "zsh"
  }

  /** `ShellKind::rc_filename` */
  function RcFilename(shell: ShellKind): string {
    match shell
    case Bash => ".bashrc"
    case Zsh => ".zshrc"
  }

  /** `parse_shell_name`: trimmed and ASCII-lower-cased, only the two names. */
  function ParseShellName(input: string): (r: Option<ShellKind>)
    ensures r.Some? <==> ToAsciiLower(Trim(input)) in {"zsh", "bash"}
    ensures r.Some? ==> ToAsciiLower(Trim(input)) == AsStr(r.value)
  {
    var name := ToAsciiLower(Trim(input));
    if name == "zsh" then Some(Zsh)
    else if name == "bash" then Some(Bash)
    else None
  }

  /** Naming a shell and parsing the name back gives the same shell. */
  lemma ParseShellNameAsStr(shell: ShellKind)
    ensures ParseShellName(AsStr(shell)) == Some(shell)
  {
    TrimByNoop(AsStr(shell), IsWhitespace);
    LowerOfLower(AsStr(shell));
  }

  // ---------------------------------------------------------------------
  // The wrapper block

  /** The arguments the function hands straight to the binary. */
  const PASS_THROUGH := "setup|init|-h|--help|--json|--plain"
  /** The non-interactive guard. */
  const TTY_GUARD := "if [[ ! -t 0 || ! -t 1 ]]; then"
  /** The call that makes the binary write the accepted command to a file. */
  const OUTPUT_FILE_CALL := "command b --output-file"

  /** The lines of the body holding the three pieces above. */
  const GUARD_LINE := "  " + TTY_GUARD + "\n"
  const CASE_LINE := "      " + PASS_THROUGH + ")\n"
  const CALL_LINE := "  " + OUTPUT_FILE_CALL + " \"$__b_tmp\" \"$@\" || {\n"

  /** Outside a terminal, hand every call to the binary. */
  const GUARD_PART :=
    "b() {\n" + GUARD_LINE + "    command b \"$@\"\n" + "    return $?\n" + "  fi\n"

  /** The control arguments are never intercepted. */
  const LOOP_PART := LOOP_OPEN + CASE_LINE + LOOP_CLOSE
  const LOOP_OPEN := "  for arg in \"$@\"; do\n" + "    case \"$arg\" in\n"
  const LOOP_CLOSE :=
    "        command b \"$@\"\n" + "        return $?\n" + "        ;;\n" + "    esac\n" + "  done\n"

  /** Run the binary with a temporary output file, keeping its exit status on failure. */
  const CALL_PART := CALL_OPEN + CALL_LINE + CALL_CLOSE
  const CALL_OPEN := "  local __b_tmp\n" + "  __b_tmp=\"$(mktemp)\" || return 1\n"
  const CALL_CLOSE :=
    "    local __b_status=$?\n" + "    rm -f \"$__b_tmp\"\n" + "    return $__b_status\n" + "  }\n"

  /** Read the command back, remove the file and echo the command. */
  const READ_PART := READ_OPEN + READ_CLOSE
  const READ_OPEN := "  local cmd\n" + "  cmd=\"$(cat \"$__b_tmp\")\"\n" + "  rm -f \"$__b_tmp\"\n"
  const READ_CLOSE := "  [[ -z \"$cmd\" ]] && return 1\n" + "  printf '%s\\n' \"$cmd\"\n"

  /** The one line in which the two shells differ: recording the command in history. */
  function HistoryLine(shell: ShellKind): string {
    match shell
    case Bash => "  history -s \"$cmd\""
    case Zsh => "  print -s -- \"$cmd\""
  }

  const EVAL_PART := "\n  eval \"$cmd\"\n}"

  /** The shell function of either shell. */
  function Body(shell: ShellKind): string {
    GUARD_PART + LOOP_PART + CALL_PART + READ_PART + HistoryLine(shell) + EVAL_PART
  }

  /** `ShellKind::wrapper_block` */
  function WrapperBlock(shell: ShellKind): string {
    BEGIN_MARKER + "\n" + Body(shell) + "\n" + END_MARKER + "\n"
  }

  /** The body guards on a terminal, passes the control flags through and
      calls the binary with an output file. */
  lemma BodyContains(shell: ShellKind)
    ensures Contains(Body(shell), PASS_THROUGH)
    ensures Contains(Body(shell), OUTPUT_FILE_CALL)
    ensures Contains(Body(shell), TTY_GUARD)
  {
    GuardPartContains();
    LoopPartContains();
    CallPartContains();
    var rest := HistoryLine(shell) + EVAL_PART;
    assert Body(shell) == GUARD_PART + LOOP_PART + CALL_PART + READ_PART + HistoryLine(shell) + EVAL_PART;
    ContainsLeft(GUARD_PART, LOOP_PART, TTY_GUARD);
    ContainsRight(GUARD_PART, LOOP_PART, PASS_THROUGH);
    ContainsLeft(GUARD_PART + LOOP_PART, CALL_PART, TTY_GUARD);
    ContainsLeft(GUARD_PART + LOOP_PART, CALL_PART, PASS_THROUGH);
    ContainsRight(GUARD_PART + LOOP_PART, CALL_PART, OUTPUT_FILE_CALL);
    var upToCall := GUARD_PART + LOOP_PART + CALL_PART;
    ContainsLeft(upToCall, READ_PART, TTY_GUARD);
    ContainsLeft(upToCall, READ_PART, PASS_THROUGH);
    ContainsLeft(upToCall, READ_PART, OUTPUT_FILE_CALL);
    ContainsLeft(upToCall + READ_PART, HistoryLine(shell), TTY_GUARD);
    ContainsLeft(upToCall + READ_PART, HistoryLine(shell), PASS_THROUGH);
    ContainsLeft(upToCall + READ_PART, HistoryLine(shell), OUTPUT_FILE_CALL);
    ContainsLeft(upToCall + READ_PART + HistoryLine(shell), EVAL_PART, TTY_GUARD);
    ContainsLeft(upToCall + READ_PART + HistoryLine(shell), EVAL_PART, PASS_THROUGH);
    ContainsLeft(upToCall + READ_PART + HistoryLine(shell), EVAL_PART, OUTPUT_FILE_CALL);
  }

  /** `a + pat + c` contains `pat`. */
  lemma Between(a: string, pat: string, c: string)
    ensures Contains(a + pat + c, pat)
  {
    ContainsSelf(pat);
    ContainsRight(a, pat, pat);
    ContainsLeft(a + pat, c, pat);
  }

  lemma GuardPartContains()
    ensures Contains(GUARD_PART, TTY_GUARD)
  {
    Between("  ", TTY_GUARD, "\n");
    ContainsRight("b() {\n", GUARD_LINE, TTY_GUARD);
    var s := "b() {\n" + GUARD_LINE;
    ContainsLeft(s, "    command b \"$@\"\n", TTY_GUARD);
    s := s + "    command b \"$@\"\n";
    ContainsLeft(s, "    return $?\n", TTY_GUARD);
    s := s + "    return $?\n";
    ContainsLeft(s, "  fi\n", TTY_GUARD);
  }

  lemma LoopPartContains()
    ensures Contains(LOOP_PART, PASS_THROUGH)
  {
    Between("      ", PASS_THROUGH, ")\n");
    ContainsRight(LOOP_OPEN, CASE_LINE, PASS_THROUGH);
    ContainsLeft(LOOP_OPEN + CASE_LINE, LOOP_CLOSE, PASS_THROUGH);
  }

  lemma CallPartContains()
    ensures Contains(CALL_PART, OUTPUT_FILE_CALL)
  {
    Between("  ", OUTPUT_FILE_CALL, " \"$__b_tmp\" \"$@\" || {\n");
    ContainsRight(CALL_OPEN, CALL_LINE, OUTPUT_FILE_CALL);
    ContainsLeft(CALL_OPEN + CALL_LINE, CALL_CLOSE, OUTPUT_FILE_CALL);
  }

  /** The block is the begin-marker line, the body, and the end-marker line
      ended by '\n'; the body passes the control flags through, guards on a
      terminal and calls the binary with an output file. */
  lemma WrapperBlockShape(shell: ShellKind)
    ensures StartsWith(WrapperBlock(shell), BEGIN_MARKER + "\n")
    ensures EndsWith(WrapperBlock(shell), "\n" + END_MARKER + "\n")
    ensures Contains(WrapperBlock(shell), PASS_THROUGH)
    ensures Contains(WrapperBlock(shell), OUTPUT_FILE_CALL)
    ensures Contains(WrapperBlock(shell), TTY_GUARD)
  {
    BodyContains(shell);
    FramedBody(Body(shell));
  }

  /** The same, for any body holding the three pieces. */
  lemma FramedBody(body: string)
    requires Contains(body, PASS_THROUGH) && Contains(body, OUTPUT_FILE_CALL) && Contains(body, TTY_GUARD)
    ensures var block := BEGIN_MARKER + "\n" + body + "\n" + END_MARKER + "\n";
      && StartsWith(block, BEGIN_MARKER + "\n")
      && EndsWith(block, "\n" + END_MARKER + "\n")
      && Contains(block, PASS_THROUGH)
      && Contains(block, OUTPUT_FILE_CALL)
      && Contains(block, TTY_GUARD)
  {
    var pre := BEGIN_MARKER + "\n";
    var post := "\n" + END_MARKER + "\n";
    var block := pre + body + post;
    assert block == BEGIN_MARKER + "\n" + body + "\n" + END_MARKER + "\n";
    assert block[..|pre|] == pre;
    assert block[|block| - |post|..] == post;
    ContainsWithin(pre, body, post, PASS_THROUGH);
    ContainsWithin(pre, body, post, OUTPUT_FILE_CALL);
    ContainsWithin(pre, body, post, TTY_GUARD);
  }

  // The script holds no '<': the only ones of a block are its end marker's.

  lemma GuardPartNoAngle()
    ensures '<' !in GUARD_PART
  {
    assert '<' !in "b() {\n";
    assert '<' !in "  ";
    assert '<' !in TTY_GUARD;
    assert '<' !in "\n";
    assert '<' !in "    command b \"$@\"\n";
    assert '<' !in "    return $?\n";
    assert '<' !in "  fi\n";
  }

  lemma LoopPartNoAngle()
    ensures '<' !in LOOP_PART
  {
    LoopOpenNoAngle();
    CaseLineNoAngle();
    LoopCloseNoAngle();
  }

  lemma LoopOpenNoAngle()
    ensures '<' !in LOOP_OPEN
  {
    assert '<' !in "  for arg in \"$@\"; do\n";
    assert '<' !in "    case \"$arg\" in\n";
  }

  lemma CaseLineNoAngle()
    ensures '<' !in CASE_LINE
  {
    assert '<' !in "      ";
    assert '<' !in PASS_THROUGH;
    assert '<' !in ")\n";
  }

  lemma LoopCloseNoAngle()
    ensures '<' !in LOOP_CLOSE
  {
    assert '<' !in "        command b \"$@\"\n";
    assert '<' !in "        return $?\n";
    assert '<' !in "        ;;\n";
    assert '<' !in "    esac\n";
    assert '<' !in "  done\n";
  }

  lemma CallPartNoAngle()
    ensures '<' !in CALL_PART
  {
    CallOpenNoAngle();
    CallLineNoAngle();
    CallCloseNoAngle();
  }

  lemma CallOpenNoAngle()
    ensures '<' !in CALL_OPEN
  {
    assert '<' !in "  local __b_tmp\n";
    assert '<' !in "  __b_tmp=\"$(mktemp)\" || return 1\n";
  }

  lemma CallLineNoAngle()
    ensures '<' !in CALL_LINE
  {
    assert '<' !in "  ";
    assert '<' !in OUTPUT_FILE_CALL;
    assert '<' !in " \"$__b_tmp\" \"$@\" || {\n";
  }

  lemma CallCloseNoAngle()
    ensures '<' !in CALL_CLOSE
  {
    assert '<' !in "    local __b_status=$?\n";
    assert '<' !in "    rm -f \"$__b_tmp\"\n";
    assert '<' !in "    return $__b_status\n";
    assert '<' !in "  }\n";
  }

  lemma ReadPartNoAngle()
    ensures '<' !in READ_PART
  {
    ReadOpenNoAngle();
    ReadCloseNoAngle();
  }

  lemma ReadOpenNoAngle()
    ensures '<' !in READ_OPEN
  {
    assert '<' !in "  local cmd\n";
    assert '<' !in "  cmd=\"$(cat \"$__b_tmp\")\"\n";
    assert '<' !in "  rm -f \"$__b_tmp\"\n";
  }

  lemma ReadCloseNoAngle()
    ensures '<' !in READ_CLOSE
  {
    assert '<' !in "  [[ -z \"$cmd\" ]] && return 1\n";
    assert '<' !in "  printf '%s\\n' \"$cmd\"\n";
  }

  lemma BodyNoAngle(shell: ShellKind)
    ensures '<' !in Body(shell)
  {
    GuardPartNoAngle();
    LoopPartNoAngle();
    CallPartNoAngle();
    ReadPartNoAngle();
    TailNoAngle(shell);
    NoAngleJoin(GUARD_PART + LOOP_PART + CALL_PART + READ_PART, HistoryLine(shell) + EVAL_PART);
  }

  lemma TailNoAngle(shell: ShellKind)
    ensures '<' !in HistoryLine(shell) + EVAL_PART
  {
    assert '<' !in HistoryLine(shell);
    assert '<' !in EVAL_PART;
  }

  /** Two texts without '<' make one. */
  lemma NoAngleJoin(a: string, b: string)
    requires '<' !in a && '<' !in b
    ensures '<' !in a + b
  {
  }

  /** The generated block has the shape the idempotence lemma needs: it
      begins with the begin marker, and its only end marker closes it. */
  lemma WrapperBlockHasShape(shell: ShellKind)
    ensures BlockShape(WrapperBlock(shell), BEGIN_MARKER, END_MARKER)
    ensures Find(WrapperBlock(shell), END_MARKER) == Some(|WrapperBlock(shell)| - |END_MARKER| - 1)
  {
    HeadNoAngle(shell);
    MarkedBlockShape(Body(shell));
  }

  /** The same, for any body without '<' between the two marker lines. */
  lemma MarkedBlockShape(body: string)
    requires '<' !in BEGIN_MARKER + "\n" + body + "\n"
    ensures var block := BEGIN_MARKER + "\n" + body + "\n" + END_MARKER + "\n";
      && BlockShape(block, BEGIN_MARKER, END_MARKER)
      && Find(block, END_MARKER) == Some(|block| - |END_MARKER| - 1)
  {
    var pre := BEGIN_MARKER + "\n" + body + "\n";
    OpensWith(BEGIN_MARKER, "\n", body, "\n");
    FirstEndMarker(pre, "\n");
    ClosedBlockShape(pre, BEGIN_MARKER, END_MARKER);
  }

  /** A concatenation starts with its first piece. */
  lemma OpensWith(a: string, b: string, c: string, d: string)
    ensures StartsWith(a + b + c + d, a)
  {
    assert (a + b + c + d)[..|a|] == a;
  }

  /** A text opening with `begin`, closed by the first `end` in it and a
      line feed, has the block shape. */
  lemma ClosedBlockShape(pre: string, begin: string, end: string)
    requires StartsWith(pre, begin)
    requires Find(pre + end + "\n", end) == Some(|pre|)
    ensures BlockShape(pre + end + "\n", begin, end)
  {
    var block := pre + end + "\n";
    assert block == pre + (end + "\n");
    StartsWithLeft(pre, end + "\n", begin);
  }

  /** Everything of a block before its end marker is free of '<'. */
  lemma HeadNoAngle(shell: ShellKind)
    ensures '<' !in BEGIN_MARKER + "\n" + Body(shell) + "\n"
  {
    BodyNoAngle(shell);
    FramedNoAngle(Body(shell));
  }

  /** The begin-marker line and a body without '<', up to its last line feed. */
  lemma FramedNoAngle(body: string)
    requires '<' !in body
    ensures '<' !in BEGIN_MARKER + "\n" + body + "\n"
  {
    assert '<' !in BEGIN_MARKER;
  }

  /** An end marker after a text without '<' is the first one. */
  lemma FirstEndMarker(pre: string, post: string)
    requires '<' !in pre
    ensures Find(pre + END_MARKER + post, END_MARKER) == Some(|pre|)
  {
    var s := pre + END_MARKER + post;
    assert s[|pre|..|pre| + |END_MARKER|] == END_MARKER;
    assert END_MARKER[2] == '<' && END_MARKER[0] != '<' && END_MARKER[1] != '<';
    forall j | 0 <= j < |pre| + 2
      ensures s[j] != END_MARKER[2]
    {
      if j < |pre| {
        assert s[j] == pre[j];
      } else {
        assert s[j] == END_MARKER[j - |pre|];
      }
    }
    FindFirstBy(s, END_MARKER, |pre|, 2);
  }

  // ---------------------------------------------------------------------
  // Upserting the block

  /** `upsert_block` with the program's markers. */
  function Upsert(existing: string, block: string): Upserted {
    Splice(existing, block, BEGIN_MARKER, END_MARKER)
  }

  /** `upsert_block` as the source writes it: `out` grows by pushes. */
  method UpsertBlock(existing: string, block: string) returns (out: string, changed: bool)
    ensures Upserted(out, changed) == Upsert(existing, block)
  {
    var start := Find(existing, BEGIN_MARKER);
    if start.Some? {
      var endRel := Find(existing[start.value..], END_MARKER);
      if endRel.Some? {
        var end := start.value + endRel.value + |END_MARKER|;
        ghost var span := MarkedSpan(existing, BEGIN_MARKER, END_MARKER);
        assert span == Marked(start.value, end);
        out := existing[..start.value];
        ghost var pre := out;
        if !(out != [] && out[|out| - 1] == '\n') && out != [] {
          out := out + "\n";
        }
        assert out == Terminated(pre);
        out := out + block;
        var trailing := TrimStartBy(existing[end..], IsLineFeed);
        ghost var beforeTail := out;
        if trailing != [] {
          out := out + "\n";
          out := out + trailing;
          if out[|out| - 1] != '\n' {
            out := out + "\n";
          }
          PushTrailing(beforeTail, trailing);
        }
        assert out == beforeTail + TrailingPart(existing[end..]);
        changed := out != existing;
        SpliceReplaces(existing, block, BEGIN_MARKER, END_MARKER, start.value, end);
        return;
      }
    }
    out := existing;
    if out != [] && out[|out| - 1] != '\n' {
      out := out + "\n";
    }
    if out != [] {
      out := out + "\n";
    }
    out := out + block;
    changed := true;
  }

  /** Pushing "\n", the trailing text and, if it is unterminated, one more
      "\n" appends "\n" and the terminated trailing text. */
  lemma PushTrailing(head: string, t: string)
    requires t != []
    ensures var o := head + "\n" + t;
      (if o[|o| - 1] != '\n' then o + "\n" else o) == head + ("\n" + Terminated(t))
  {
    var o := head + "\n" + t;
    assert o[|o| - 1] == t[|t| - 1];
    if t[|t| - 1] != '\n' {
      assert o + "\n" == head + ("\n" + (t + "\n"));
    } else {
      assert o == head + ("\n" + t);
    }
  }

  /** The program's markers meet the idempotence lemma's conditions. */
  lemma MarkersWellFormed()
    ensures BEGIN_MARKER != [] && '\n' !in BEGIN_MARKER
  {
  }

  /** The test's scenario, generalised: installing a shell's block into any
      profile without a stray begin marker, then installing it again,
      leaves the profile as the first install left it. */
  lemma UpsertWrapperIdempotent(shell: ShellKind, existing: string)
    requires NoStrayBegin(existing, BEGIN_MARKER, END_MARKER)
    ensures var first := Upsert(existing, WrapperBlock(shell)).content;
      Upsert(first, WrapperBlock(shell)) == Upserted(first, false)
  {
    MarkersWellFormed();
    WrapperBlockHasShape(shell);
    SpliceIdempotent(existing, WrapperBlock(shell), BEGIN_MARKER, END_MARKER);
  }

  /** The program's test: the first upsert into an empty profile is the block
      and a change, the second is no change. */
  lemma UpsertTwiceFromEmpty(shell: ShellKind)
    ensures Upsert([], WrapperBlock(shell)) == Upserted(WrapperBlock(shell), true)
    ensures Upsert(WrapperBlock(shell), WrapperBlock(shell)) == Upserted(WrapperBlock(shell), false)
  {
    MarkersWellFormed();
    SpliceIntoEmpty(WrapperBlock(shell), BEGIN_MARKER, END_MARKER);
    UpsertWrapperIdempotent(shell, []);
  }

  // ---------------------------------------------------------------------
  // Installing

  /** `install`'s result: the shell, the profile path and whether it was written. */
  datatype InstallResult = InstallResult(shell: ShellKind, rcPath: string, updated: bool)

  /** `home.join(name)` for a relative file name. (For an empty `home`,
      which the home-directory lookup never yields, `PathBuf::join` would
      give `name` alone.) */
  function JoinPath(home: string, name: string): (r: string)
    ensures StartsWith(r, home) && EndsWith(r, name)
    ensures |r| == |home| + |name| + (if home != [] && home[|home| - 1] == '/' then 0 else 1)
    ensures |r| > |home| + |name| ==> r[|home|] == '/'
  {
    if home != [] && home[|home| - 1] == '/' then
      assert (home + name)[..|home|] == home && (home + name)[|home|..] == name;
      home + name
    else
      assert (home + "/" + name)[..|home|] == home && (home + "/" + name)[|home| + 1..] == name;
      home + "/" + name
  }

  /** `install`. `home` is the home directory if one is found, `read` the
      profile's contents if it could be read (an unreadable profile counts
      as empty) and `write` the outcome of writing the new contents. The
      second component is the text written to the profile, if any. */
  function Install(shell: ShellKind, home: Option<string>, read: Option<string>,
                   write: string -> Option<AppError>): (r: Result<(InstallResult, Option<string>), AppError>)
    ensures home.None? ==> r == Failure(Message("unable to locate home directory"))
    ensures r.Success? ==> r.value.0.shell == shell && r.value.0.rcPath == JoinPath(home.value, RcFilename(shell))
    ensures r.Success? ==> (r.value.1.Some? <==> r.value.0.updated)
    ensures r.Success? ==> r.value.0.updated == Upsert(read.GetOr([]), WrapperBlock(shell)).changed
    ensures r.Success? && r.value.1.Some? ==> r.value.1.value == Upsert(read.GetOr([]), WrapperBlock(shell)).content
    ensures home.Some? ==> (r.Failure? <==>
      Upsert(read.GetOr([]), WrapperBlock(shell)).changed && write(Upsert(read.GetOr([]), WrapperBlock(shell)).content).Some?)
    ensures home.Some? && r.Failure? ==> write(Upsert(read.GetOr([]), WrapperBlock(shell)).content) == Some(r.error)
  {
    match home
    case None => Failure(Message("unable to locate home directory"))
    case Some(dir) =>
      var rcPath := JoinPath(dir, RcFilename(shell));
      var upserted := Upsert(read.GetOr([]), WrapperBlock(shell));
      if upserted.changed then
        match write(upserted.content)
        case Some(e) => Failure(e)
        case None => Success((InstallResult(shell, rcPath, true), Some(upserted.content)))
      else Success((InstallResult(shell, rcPath, false), None))
  }

  /** Installing over a profile that an earlier install produced writes
      nothing and reports the integration as up to date. */
  lemma ReinstallWritesNothing(shell: ShellKind, home: string, existing: string,
                               write: string -> Option<AppError>)
    requires NoStrayBegin(existing, BEGIN_MARKER, END_MARKER)
    ensures var first := Upsert(existing, WrapperBlock(shell)).content;
      Install(shell, Some(home), Some(first), write) ==
        Success((InstallResult(shell, JoinPath(home, RcFilename(shell)), false), None))
  {
    UpsertWrapperIdempotent(shell, existing);
  }
}
