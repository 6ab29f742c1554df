/** The session and command-dispatch engine (src/client.rs): the login
    retry loop and the read-dispatch loop over registered commands.
    Prompts and the transport are oracles, given as finite scripts. */
module Client {
  import opened Wrappers
  import opened Model
  import opened CliInteraction

  // ---------------------------------------------------------------------
  // Case-insensitive names

  function ToAsciiLower(c: char): char {
    if 'A' <= c <= 'Z' then (c as int + 32) as char else c
  }

  /** `str::eq_ignore_ascii_case`. Rust compares bytes, this compares
      characters: the two agree because ASCII folding leaves every
      character outside `A`-`Z` (and so every byte of a multi-byte
      character) unchanged. */
  predicate EqIgnoreAsciiCase(a: string, b: string) {
    |a| == |b| && forall i :: 0 <= i < |a| ==> ToAsciiLower(a[i]) == ToAsciiLower(b[i])
  }

  const QuitName := "quit"
  const HelpName := "help"
  const CommandHeader := "Command: "
  const HelpEntry := "help   - displays this list\n-----------------"
  const QuitEntry := "quit   - exits the program\n-----------------"
  const Divider := "-----------------"
  const UnknownCommand := "Unknown command"
  const ReadyNotice := "Ready to receive commands type. Type \"help\" for a list of commands "
  const ShutdownNotice := "Shutting down."

  function StartNotice(url: string): string {
    "Starting client for " + url
  }

  // ---------------------------------------------------------------------
  // Login

  /** One round of the login loop: what the username and password prompts
      returned and what the transport's `login` answered. */
  datatype Attempt = Attempt(username: Option<string>, password: Option<string>, reply: Result<LoginResult, Reason>)

  /** A call to the transport's `login`. */
  datatype LoginCall = LoginCall(url: string, username: string, password: string)

  /** How the login loop ends. `Aborted` is the `panic!` on `Reason::Other`;
      `ScriptEnded` means the script holds no further round. */
  datatype LoginEnd = LoggedIn(session: LoginResult) | Declined | Aborted | ScriptEnded

  /** The end of the login loop, with the number of credential prompts and
      of retry confirmations asked for. */
  datatype LoginRun = LoginRun(end: LoginEnd, prompts: nat, confirmations: nat)

  /** The `k`-th retry confirmation; past the script it is a failed prompt. */
  function AnswerAt(answers: seq<Option<bool>>, k: nat): Option<bool> {
    if k < |answers| then answers[k] else None
  }

  /** The call the `k`-th round makes, with the prompt defaults applied. */
  function CallFor(url: string, a: Attempt): LoginCall {
    var creds := GetCredentials(a.username, a.password);
    LoginCall(url, creds.0, creds.1)
  }

  /** The login loop from round `k` on. */
  function LoginFrom(attempts: seq<Attempt>, answers: seq<Option<bool>>, k: nat): LoginRun
    requires k <= |attempts|
    decreases |attempts| - k
  {
    if k == |attempts| then LoginRun(ScriptEnded, k, k)
    else
      match attempts[k].reply
      case Ok(s) => LoginRun(LoggedIn(s), k + 1, k)
      case Err(Other) => LoginRun(Aborted, k + 1, k)
      case Err(InvalidCredentials) =>
        if RetryCredentials(AnswerAt(answers, k)) then LoginFrom(attempts, answers, k + 1)
        else LoginRun(Declined, k + 1, k + 1)
  }

  function LoginSpec(attempts: seq<Attempt>, answers: seq<Option<bool>>): LoginRun {
    LoginFrom(attempts, answers, 0)
  }

  /** The first `k` rounds were rejected as invalid credentials and each
      time the operator confirmed the retry. */
  predicate RetriedUpTo(attempts: seq<Attempt>, answers: seq<Option<bool>>, k: nat) {
    k <= |attempts| &&
    forall j :: 0 <= j < k ==>
      attempts[j].reply == Err(InvalidCredentials) && RetryCredentials(AnswerAt(answers, j))
  }

  lemma {:induction false} LoginSkipsRetries(attempts: seq<Attempt>, answers: seq<Option<bool>>, j: nat, k: nat)
    requires j <= k && RetriedUpTo(attempts, answers, k)
    ensures LoginFrom(attempts, answers, j) == LoginFrom(attempts, answers, k)
    decreases k - j
  {
    if j < k {
      LoginSkipsRetries(attempts, answers, j + 1, k);
    }
  }

  /** After any number of confirmed retries, the round that is not retried
      decides: a success logs in with exactly that reply's session,
      `Other` aborts without asking to retry, a declined retry ends the
      loop. */
  lemma LoginStopsAt(attempts: seq<Attempt>, answers: seq<Option<bool>>, k: nat)
    requires k < |attempts| && RetriedUpTo(attempts, answers, k)
    ensures attempts[k].reply.Ok? ==>
      LoginSpec(attempts, answers) == LoginRun(LoggedIn(attempts[k].reply.value), k + 1, k)
    ensures attempts[k].reply == Err(Other) ==>
      LoginSpec(attempts, answers) == LoginRun(Aborted, k + 1, k)
    ensures attempts[k].reply == Err(InvalidCredentials) && !RetryCredentials(AnswerAt(answers, k)) ==>
      LoginSpec(attempts, answers) == LoginRun(Declined, k + 1, k + 1)
  {
    LoginSkipsRetries(attempts, answers, 0, k);
  }

  /** Retries confirmed to the end of the script exhaust it. */
  lemma LoginRunsOut(attempts: seq<Attempt>, answers: seq<Option<bool>>)
    requires RetriedUpTo(attempts, answers, |attempts|)
    ensures LoginSpec(attempts, answers) == LoginRun(ScriptEnded, |attempts|, |attempts|)
  {
    LoginSkipsRetries(attempts, answers, 0, |attempts|);
  }

  lemma {:induction false} LoginFromShape(attempts: seq<Attempt>, answers: seq<Option<bool>>, k: nat)
    requires RetriedUpTo(attempts, answers, k)
    ensures var r := LoginFrom(attempts, answers, k);
      && k <= r.prompts <= |attempts|
      && (r.end.ScriptEnded? ==> r.prompts == r.confirmations == |attempts| && RetriedUpTo(attempts, answers, |attempts|))
      && (!r.end.ScriptEnded? ==> r.prompts >= 1 && RetriedUpTo(attempts, answers, r.prompts - 1))
      && (r.end.LoggedIn? ==> attempts[r.prompts - 1].reply == Ok(r.end.session) && r.confirmations == r.prompts - 1)
      && (r.end.Aborted? ==> attempts[r.prompts - 1].reply == Err(Other) && r.confirmations == r.prompts - 1)
      && (r.end.Declined? ==>
            && attempts[r.prompts - 1].reply == Err(InvalidCredentials)
            && !RetryCredentials(AnswerAt(answers, r.prompts - 1))
            && r.confirmations == r.prompts)
    decreases |attempts| - k
  {
    if k < |attempts| && attempts[k].reply == Err(InvalidCredentials) && RetryCredentials(AnswerAt(answers, k)) {
      LoginFromShape(attempts, answers, k + 1);
    }
  }

  /** Every run of the login loop: all rounds but the last were rejected
      and retried, and the last one explains the end. In particular a
      session is exactly the final reply's, however many rounds came
      before. */
  lemma LoginRunShape(attempts: seq<Attempt>, answers: seq<Option<bool>>)
    ensures var r := LoginSpec(attempts, answers);
      && r.prompts <= |attempts|
      && (r.end.ScriptEnded? ==> r.prompts == r.confirmations == |attempts| && RetriedUpTo(attempts, answers, |attempts|))
      && (!r.end.ScriptEnded? ==> r.prompts >= 1 && RetriedUpTo(attempts, answers, r.prompts - 1))
      && (r.end.LoggedIn? ==> attempts[r.prompts - 1].reply == Ok(r.end.session) && r.confirmations == r.prompts - 1)
      && (r.end.Aborted? ==> attempts[r.prompts - 1].reply == Err(Other) && r.confirmations == r.prompts - 1)
      && (r.end.Declined? ==>
            && attempts[r.prompts - 1].reply == Err(InvalidCredentials)
            && !RetryCredentials(AnswerAt(answers, r.prompts - 1))
            && r.confirmations == r.prompts)
  {
    LoginFromShape(attempts, answers, 0);
  }

  // ---------------------------------------------------------------------
  // One iteration of the command loop

  /** A call of a registered command's handler: its index in the registry
      and the argument tokens it receives. */
  datatype Invocation = Invocation(index: nat, args: seq<string>)

  /** What one input line does: whether the loop goes on, the strings given
      to `println!` (help first, then the unknown-command notice) and the
      handler calls, in order. */
  datatype StepResult = StepResult(keepRunning: bool, printed: seq<string>, calls: seq<Invocation>)

  function HelpBlock(c: Command): seq<string> {
    [CommandHeader] + HelpText(c) + [Divider]
  }

  /** The help of every command of `cmds`, in registration order. */
  function CommandBlocks(cmds: seq<Command>): seq<string> {
    if cmds == [] then []
    else CommandBlocks(cmds[..|cmds| - 1]) + HelpBlock(cmds[|cmds| - 1])
  }

  /** What `help` prints: the two built-ins, then the registered commands. */
  function HelpListing(cmds: seq<Command>): seq<string> {
    [CommandHeader, HelpEntry, CommandHeader, QuitEntry] + CommandBlocks(cmds)
  }

  /** The handler calls for the command name `name`: every registered
      command with that name, in registration order. */
  function Dispatched(cmds: seq<Command>, name: string, args: seq<string>): seq<Invocation> {
    if cmds == [] then []
    else
      var last := |cmds| - 1;
      Dispatched(cmds[..last], name, args)
        + (if EqIgnoreAsciiCase(name, cmds[last].name) then [Invocation(last, args)] else [])
  }

  /** One iteration of `receive_commands` on the (non-empty) token list. */
  function Step(cmds: seq<Command>, tokens: seq<string>): StepResult
    requires |tokens| > 0
  {
    var name := tokens[0];
    var quit := EqIgnoreAsciiCase(name, QuitName);
    var help := EqIgnoreAsciiCase(name, HelpName);
    var calls := Dispatched(cmds, name, tokens[1..]);
    var handled := quit || help || calls != [];
    StepResult(
      !quit,
      (if help then HelpListing(cmds) else []) + (if handled then [] else [UnknownCommand]),
      calls)
  }

  lemma DispatchedExactly(cmds: seq<Command>, name: string, args: seq<string>)
    ensures var r := Dispatched(cmds, name, args);
      && (forall i :: 0 <= i < |r| ==>
            r[i].args == args && r[i].index < |cmds| && EqIgnoreAsciiCase(name, cmds[r[i].index].name))
      && (forall i, j :: 0 <= i < j < |r| ==> r[i].index < r[j].index)
      && (forall k :: 0 <= k < |cmds| ==> (EqIgnoreAsciiCase(name, cmds[k].name) <==> Invocation(k, args) in r))
  {
    DispatchedSound(cmds, name, args);
    DispatchedOrdered(cmds, name, args);
    DispatchedComplete(cmds, name, args);
  }

  /** Every call in `calls` is of a command of `cmds` named `name`, with
      the arguments `args`. */
  ghost predicate CallsMatch(cmds: seq<Command>, name: string, args: seq<string>, calls: seq<Invocation>) {
    forall i :: 0 <= i < |calls| ==>
      calls[i].args == args && calls[i].index < |cmds| && EqIgnoreAsciiCase(name, cmds[calls[i].index].name)
  }

  /** Every call is of a matching command, with the remaining tokens. */
  lemma {:induction false} DispatchedSound(cmds: seq<Command>, name: string, args: seq<string>)
    ensures CallsMatch(cmds, name, args, Dispatched(cmds, name, args))
  {
    if cmds != [] {
      var last := |cmds| - 1;
      DispatchedSound(cmds[..last], name, args);
      var front := Dispatched(cmds[..last], name, args);
      var r := Dispatched(cmds, name, args);
      forall i | 0 <= i < |r|
        ensures r[i].args == args && r[i].index < |cmds| && EqIgnoreAsciiCase(name, cmds[r[i].index].name)
      {
        if i < |front| {
          assert r[i] == front[i];
          assert cmds[..last][front[i].index] == cmds[front[i].index];
        }
      }
    }
  }

  /** The calls in `calls` are in strictly increasing command order. */
  ghost predicate CallsOrdered(calls: seq<Invocation>) {
    forall i, j :: 0 <= i < j < |calls| ==> calls[i].index < calls[j].index
  }

  /** Calls follow registration order. */
  lemma {:induction false} DispatchedOrdered(cmds: seq<Command>, name: string, args: seq<string>)
    ensures CallsOrdered(Dispatched(cmds, name, args))
  {
    if cmds != [] {
      var last := |cmds| - 1;
      DispatchedOrdered(cmds[..last], name, args);
      DispatchedSound(cmds[..last], name, args);
      var front := Dispatched(cmds[..last], name, args);
      var r := Dispatched(cmds, name, args);
      forall i, j | 0 <= i < j < |r|
        ensures r[i].index < r[j].index
      {
        assert r[i] == front[i];
        if j < |front| {
          assert r[j] == front[j];
        } else {
          assert r[j].index == last;
          assert front[i].index < |cmds[..last]|;
        }
      }
    }
  }

  /** Every matching command is called. */
  lemma {:induction false} DispatchedComplete(cmds: seq<Command>, name: string, args: seq<string>)
    ensures var r := Dispatched(cmds, name, args);
      forall k :: 0 <= k < |cmds| ==> (EqIgnoreAsciiCase(name, cmds[k].name) <==> Invocation(k, args) in r)
  {
    if cmds != [] {
      var last := |cmds| - 1;
      DispatchedComplete(cmds[..last], name, args);
      DispatchedSound(cmds[..last], name, args);
      var r := Dispatched(cmds, name, args);
      var front := Dispatched(cmds[..last], name, args);
      forall k | 0 <= k < |cmds|
        ensures EqIgnoreAsciiCase(name, cmds[k].name) <==> Invocation(k, args) in r
      {
        if k < last {
          assert cmds[..last][k] == cmds[k];
          if Invocation(k, args) in r {
            var i :| 0 <= i < |r| && r[i] == Invocation(k, args);
            assert i < |front|;
          }
        }
      }
    }
  }

  /** Handler dispatch: every registered command whose name matches the
      first token ignoring ASCII case is called, in registration order, with
      the remaining tokens, whatever the built-ins did. */
  lemma StepDispatch(cmds: seq<Command>, tokens: seq<string>)
    requires |tokens| > 0
    ensures var r := Step(cmds, tokens).calls;
      && (forall i :: 0 <= i < |r| ==>
            r[i].args == tokens[1..] && r[i].index < |cmds| && EqIgnoreAsciiCase(tokens[0], cmds[r[i].index].name))
      && (forall i, j :: 0 <= i < j < |r| ==> r[i].index < r[j].index)
      && (forall k :: 0 <= k < |cmds| ==>
            (EqIgnoreAsciiCase(tokens[0], cmds[k].name) <==> Invocation(k, tokens[1..]) in r))
  {
    DispatchedExactly(cmds, tokens[0], tokens[1..]);
  }

  /** `quit` (in any ASCII case) ends the loop after this line, whatever
      follows it; nothing else does. */
  lemma StepQuit(cmds: seq<Command>, tokens: seq<string>)
    requires |tokens| > 0
    ensures !Step(cmds, tokens).keepRunning <==> EqIgnoreAsciiCase(tokens[0], QuitName)
    ensures forall rest :: Step(cmds, [tokens[0]] + rest).keepRunning == Step(cmds, tokens).keepRunning
  {
  }

  /** `help` (in any ASCII case) prints the help listing, whatever follows
      it, and then nothing else. */
  lemma StepHelp(cmds: seq<Command>, tokens: seq<string>)
    requires |tokens| > 0 && EqIgnoreAsciiCase(tokens[0], HelpName)
    ensures Step(cmds, tokens).printed == HelpListing(cmds)
  {
  }

  /** The help listing names each registered command in registration
      order: the blocks of the earlier commands, this one's, then the later
      ones'. */
  lemma {:induction false} HelpBlockAt(cmds: seq<Command>, k: nat)
    requires k < |cmds|
    ensures CommandBlocks(cmds) == CommandBlocks(cmds[..k]) + HelpBlock(cmds[k]) + CommandBlocks(cmds[k + 1..])
  {
    BlocksSplit(cmds, k + 1);
    assert cmds[..k + 1][..k] == cmds[..k];
  }

  lemma {:induction false} BlocksSplit(cmds: seq<Command>, k: nat)
    requires k <= |cmds|
    ensures CommandBlocks(cmds) == CommandBlocks(cmds[..k]) + CommandBlocks(cmds[k..])
    decreases |cmds|
  {
    if k == |cmds| {
      assert cmds[..k] == cmds;
      assert cmds[k..] == [];
    } else {
      var last := |cmds| - 1;
      BlocksSplit(cmds[..last], k);
      assert cmds[..last][..k] == cmds[..k];
      assert cmds[..last][k..] == cmds[k..][..|cmds[k..]| - 1];
      assert cmds[k..][|cmds[k..]| - 1] == cmds[last];
    }
  }

  /** "Unknown command" is printed exactly when neither a built-in nor a
      registered command matched. */
  lemma StepUnknown(cmds: seq<Command>, tokens: seq<string>)
    requires |tokens| > 0
    ensures var unmatched := !EqIgnoreAsciiCase(tokens[0], QuitName) && !EqIgnoreAsciiCase(tokens[0], HelpName)
                             && forall k :: 0 <= k < |cmds| ==> !EqIgnoreAsciiCase(tokens[0], cmds[k].name);
      var r := Step(cmds, tokens);
      && (unmatched ==> r.printed == [UnknownCommand] && r.calls == [] && r.keepRunning)
      && (!unmatched ==> r.printed == if EqIgnoreAsciiCase(tokens[0], HelpName) then HelpListing(cmds) else [])
  {
    DispatchedExactly(cmds, tokens[0], tokens[1..]);
    var r := Step(cmds, tokens);
    if r.calls != [] {
      assert r.calls[0] in r.calls;
    }
  }

  /** Matching ignores ASCII case: `SeArCh foo` calls a command registered
      as `search`, with the single argument `foo`. */
  lemma MixedCaseMatches(action: HandlerId, args: seq<string>, summary: string)
    ensures Step([Command("search", action, args, summary)], ["SeArCh", "foo"])
         == StepResult(true, [], [Invocation(0, ["foo"])])
  {
    var c := Command("search", action, args, summary);
    var tokens := ["SeArCh", "foo"];
    assert EqIgnoreAsciiCase(tokens[0], c.name) by {
      assert ToAsciiLower('S') == 's' && ToAsciiLower('A') == 'a' && ToAsciiLower('C') == 'c';
    }
    assert !EqIgnoreAsciiCase(tokens[0], QuitName) by {
      assert ToAsciiLower(tokens[0][0]) != ToAsciiLower(QuitName[0]);
    }
    assert !EqIgnoreAsciiCase(tokens[0], HelpName) by {
      assert ToAsciiLower(tokens[0][0]) != ToAsciiLower(HelpName[0]);
    }
    assert tokens[1..] == ["foo"];
    assert [c][..0] == [];
    assert Dispatched([c], tokens[0], tokens[1..]) == [Invocation(0, ["foo"])];
  }

  // ---------------------------------------------------------------------
  // The command loop

  /** `Quit` ends the loop normally; `Crashed` is the out-of-bounds
      `args[0]` on a line without tokens. */
  datatype LoopEnd = Quit | Crashed

  datatype SessionRun = SessionRun(steps: seq<StepResult>, end: LoopEnd)

  /** `receive_commands` from line `k` of the script on. A line past the
      script is a failed prompt, hence empty. */
  function ReceiveFrom(cmds: seq<Command>, lines: seq<Option<string>>, k: nat): SessionRun
    decreases |lines| - k
  {
    if k >= |lines| then SessionRun([], Crashed)
    else
      var tokens := Tokens(lines[k].UnwrapOr(""));
      if tokens == [] then SessionRun([], Crashed)
      else
        var s := Step(cmds, tokens);
        if !s.keepRunning then SessionRun([s], Quit)
        else
          var rest := ReceiveFrom(cmds, lines, k + 1);
          SessionRun([s] + rest.steps, rest.end)
  }

  function Receive(cmds: seq<Command>, lines: seq<Option<string>>): SessionRun {
    ReceiveFrom(cmds, lines, 0)
  }

  function LineTokens(lines: seq<Option<string>>, k: nat): seq<string> {
    if k < |lines| then Tokens(lines[k].UnwrapOr("")) else []
  }

  /** What a run of the command loop from line `k` on looks like: each
      handled line had tokens and was one `Step`; the loop went on after
      every line but the last; it ended with `Quit` exactly when the last
      line was a quit, and otherwise because the next line had no token. */
  ghost predicate RunShape(cmds: seq<Command>, lines: seq<Option<string>>, k: nat, r: SessionRun) {
    && StepsFollowLines(cmds, lines, k, r.steps)
    && (forall i :: 0 <= i < |r.steps| - 1 ==> r.steps[i].keepRunning)
    && EndExplained(lines, k, r)
  }

  ghost predicate StepsFollowLines(cmds: seq<Command>, lines: seq<Option<string>>, k: nat, steps: seq<StepResult>) {
    && (steps != [] ==> k + |steps| <= |lines|)
    && (forall j :: k <= j < k + |steps| ==> LineTokens(lines, j) != [])
    && (forall j :: k <= j < k + |steps| ==> steps[j - k] == Step(cmds, LineTokens(lines, j)))
  }

  ghost predicate EndExplained(lines: seq<Option<string>>, k: nat, r: SessionRun) {
    && (r.end == Quit <==> r.steps != [] && !r.steps[|r.steps| - 1].keepRunning)
    && (r.end == Crashed ==> LineTokens(lines, k + |r.steps|) == [])
  }

  lemma {:induction false} ReceiveFromShape(cmds: seq<Command>, lines: seq<Option<string>>, k: nat)
    ensures RunShape(cmds, lines, k, ReceiveFrom(cmds, lines, k))
    decreases |lines| - k
  {
    var r := ReceiveFrom(cmds, lines, k);
    var tokens := LineTokens(lines, k);
    if tokens == [] {
      ReceiveFromEmpty(cmds, lines, k);
      ShapeCrash(cmds, lines, k);
    } else {
      var s := Step(cmds, tokens);
      var rest := ReceiveFrom(cmds, lines, k + 1);
      ReceiveFromStep(cmds, lines, k, []);
      assert [] + [s] == [s];
      if !s.keepRunning {
        assert r == SessionRun([s], Quit);
        ShapeQuit(cmds, lines, k, s);
      } else {
        assert r == SessionRun([s] + rest.steps, rest.end);
        ReceiveFromShape(cmds, lines, k + 1);
        StepsCons(cmds, lines, k, s, rest.steps);
        RunningCons(s, rest.steps);
        EndCons(lines, k, s, rest);
      }
    }
  }

  lemma ShapeCrash(cmds: seq<Command>, lines: seq<Option<string>>, k: nat)
    requires LineTokens(lines, k) == []
    ensures RunShape(cmds, lines, k, SessionRun([], Crashed))
  {
    assert k + 0 == k;
  }

  lemma ShapeQuit(cmds: seq<Command>, lines: seq<Option<string>>, k: nat, s: StepResult)
    requires LineTokens(lines, k) != [] && s == Step(cmds, LineTokens(lines, k)) && !s.keepRunning
    ensures RunShape(cmds, lines, k, SessionRun([s], Quit))
  {
    assert k < |lines|;
  }

  lemma StepsCons(cmds: seq<Command>, lines: seq<Option<string>>, k: nat, s: StepResult, steps: seq<StepResult>)
    requires StepsFollowLines(cmds, lines, k + 1, steps)
    requires k < |lines| && LineTokens(lines, k) != [] && s == Step(cmds, LineTokens(lines, k))
    ensures StepsFollowLines(cmds, lines, k, [s] + steps)
  {
    var all := [s] + steps;
    forall j | k <= j < k + |all|
      ensures LineTokens(lines, j) != [] && all[j - k] == Step(cmds, LineTokens(lines, j))
    {
      if j == k {
        assert all[0] == s;
      } else {
        StepsFollowLinesAt(cmds, lines, k + 1, steps, j);
        assert all[j - k] == steps[j - (k + 1)];
      }
    }
  }

  /** One position of `StepsFollowLines`. */
  lemma StepsFollowLinesAt(cmds: seq<Command>, lines: seq<Option<string>>, k: nat, steps: seq<StepResult>, j: nat)
    requires StepsFollowLines(cmds, lines, k, steps) && k <= j < k + |steps|
    ensures LineTokens(lines, j) != [] && steps[j - k] == Step(cmds, LineTokens(lines, j))
  {
  }

  lemma RunningCons(s: StepResult, steps: seq<StepResult>)
    requires s.keepRunning
    requires forall i :: 0 <= i < |steps| - 1 ==> steps[i].keepRunning
    ensures var all := [s] + steps; forall i :: 0 <= i < |all| - 1 ==> all[i].keepRunning
  {
    var all := [s] + steps;
    forall i | 0 < i < |all| - 1 ensures all[i].keepRunning {
      assert all[i] == steps[i - 1];
    }
  }

  lemma EndCons(lines: seq<Option<string>>, k: nat, s: StepResult, rest: SessionRun)
    requires EndExplained(lines, k + 1, rest) && s.keepRunning
    ensures EndExplained(lines, k, SessionRun([s] + rest.steps, rest.end))
  {
    var all := [s] + rest.steps;
    if rest.steps != [] {
      assert all[|all| - 1] == rest.steps[|rest.steps| - 1];
    }
    assert k + |all| == (k + 1) + |rest.steps|;
  }

  /** Every run of the command loop has the shape `RunShape` describes. */
  lemma ReceiveShape(cmds: seq<Command>, lines: seq<Option<string>>)
    ensures RunShape(cmds, lines, 0, Receive(cmds, lines))
  {
    ReceiveFromShape(cmds, lines, 0);
  }

  /** The steps already taken, followed by the rest of a run. */
  function Resume(steps: seq<StepResult>, rest: SessionRun): SessionRun {
    SessionRun(steps + rest.steps, rest.end)
  }

  lemma ReceiveFromEmpty(cmds: seq<Command>, lines: seq<Option<string>>, i: nat)
    requires LineTokens(lines, i) == []
    ensures ReceiveFrom(cmds, lines, i) == SessionRun([], Crashed)
  {
  }

  /** One line with tokens, as the loop of `ReceiveCommands` takes it. */
  lemma ReceiveFromStep(cmds: seq<Command>, lines: seq<Option<string>>, i: nat, steps: seq<StepResult>)
    requires i < |lines| && LineTokens(lines, i) != []
    ensures var s := Step(cmds, LineTokens(lines, i));
      && (s.keepRunning ==> Resume(steps, ReceiveFrom(cmds, lines, i)) == Resume(steps + [s], ReceiveFrom(cmds, lines, i + 1)))
      && (!s.keepRunning ==> Resume(steps, ReceiveFrom(cmds, lines, i)) == SessionRun(steps + [s], Quit))
  {
    var s := Step(cmds, LineTokens(lines, i));
    var rest := ReceiveFrom(cmds, lines, i + 1);
    assert steps + ([s] + rest.steps) == (steps + [s]) + rest.steps;
    assert steps + [s] == steps + [s] + [];
  }

  lemma BlocksGrow(cmds: seq<Command>, k: nat, prefix: seq<string>)
    requires k < |cmds|
    ensures prefix + CommandBlocks(cmds[..k + 1]) == prefix + CommandBlocks(cmds[..k]) + ([CommandHeader] + HelpText(cmds[k]) + [Divider])
  {
    var done := cmds[..k + 1];
    assert done[..k] == cmds[..k] && done[k] == cmds[k];
  }

  // ---------------------------------------------------------------------
  // The client

  class Client {
    var hostUrl: string
    var sessionInfo: Option<LoginResult>
    var commands: seq<Command>

    /** `Client::new`. */
    constructor (url: string)
      ensures hostUrl == url && sessionInfo == None && commands == []
    {
      hostUrl := url;
      sessionInfo := None;
      commands := [];
    }

    /** `add_command`: the command goes to the end of the registry. */
    method AddCommand(command: Command)
      modifies this
      ensures commands == old(commands) + [command]
      ensures hostUrl == old(hostUrl) && sessionInfo == old(sessionInfo)
    {
      commands := commands + [command];
    }

    /** `login`: prompt, call the transport, and on invalid credentials ask
        whether to retry, until a session is stored, the retry is declined
        or `Reason::Other` aborts. */
    method Login(attempts: seq<Attempt>, answers: seq<Option<bool>>) returns (run: LoginRun, calls: seq<LoginCall>)
      modifies this
      ensures run == LoginSpec(attempts, answers)
      ensures hostUrl == old(hostUrl) && commands == old(commands)
      ensures run.prompts <= |attempts| && |calls| == run.prompts
      ensures forall k :: 0 <= k < |calls| ==> calls[k] == CallFor(hostUrl, attempts[k])
      ensures run.end.LoggedIn? ==> sessionInfo == Some(run.end.session)
      ensures run.end.Declined? ==> sessionInfo == None
      ensures run.end.Aborted? || run.end.ScriptEnded? ==>
        sessionInfo == if run.confirmations == 0 then old(sessionInfo) else None
    {
      var loggingIn := true;
      var i := 0;
      calls := [];
      run := LoginRun(ScriptEnded, 0, 0);
      while loggingIn
        invariant 0 <= i <= |attempts|
        invariant hostUrl == old(hostUrl) && commands == old(commands)
        invariant |calls| == i && forall k :: 0 <= k < i ==> calls[k] == CallFor(hostUrl, attempts[k])
        invariant loggingIn ==> RetriedUpTo(attempts, answers, i)
        invariant loggingIn ==> sessionInfo == if i == 0 then old(sessionInfo) else None
        invariant !loggingIn ==> run == LoginSpec(attempts, answers) && run.prompts == i
        invariant !loggingIn && run.end.LoggedIn? ==> sessionInfo == Some(run.end.session)
        invariant !loggingIn ==> run.end.LoggedIn? || (run.end.Declined? && sessionInfo == None)
        decreases |attempts| - i
      {
        if i == |attempts| {
          // no scripted round is left for the credential prompt
          LoginRunsOut(attempts, answers);
          run := LoginRun(ScriptEnded, i, i);
          return;
        }
        var (username, password) := GetCredentials(attempts[i].username, attempts[i].password);
        calls := calls + [LoginCall(hostUrl, username, password)];
        match attempts[i].reply {
          case Ok(session) =>
            LoginStopsAt(attempts, answers, i);
            loggingIn := false;
            sessionInfo := Some(session);
            run := LoginRun(LoggedIn(session), i + 1, i);
          case Err(InvalidCredentials) =>
            loggingIn := RetryCredentials(AnswerAt(answers, i));
            sessionInfo := None;
            if !loggingIn {
              LoginStopsAt(attempts, answers, i);
              run := LoginRun(Declined, i + 1, i + 1);
            }
          case Err(Other) =>
            // `panic!`: the process stops before `session_info` is assigned
            LoginStopsAt(attempts, answers, i);
            run := LoginRun(Aborted, i + 1, i);
            return;
        }
        i := i + 1;
      }
    }

    /** The `help` branch of `receive_commands`: the two built-ins, then
        `print_help` of every registered command, each with a header and a
        divider. */
    method PrintHelpListing() returns (printed: seq<string>)
      ensures printed == HelpListing(commands)
      ensures |printed| >= 4 && printed[1] == HelpEntry && printed[3] == QuitEntry
    {
      var cmds := commands;
      printed := [CommandHeader, HelpEntry, CommandHeader, QuitEntry];
      for k := 0 to |cmds|
        invariant printed == [CommandHeader, HelpEntry, CommandHeader, QuitEntry] + CommandBlocks(cmds[..k])
      {
        var help := PrintHelp(cmds[k]);
        BlocksGrow(cmds, k, [CommandHeader, HelpEntry, CommandHeader, QuitEntry]);
        printed := printed + ([CommandHeader] + help + [Divider]);
      }
      assert cmds[..|cmds|] == cmds;
    }

    /** The dispatch loop of `receive_commands`: call every registered
        command whose name matches, in order. */
    method CallMatching(commandName: string, args: seq<string>) returns (calls: seq<Invocation>)
      ensures calls == Dispatched(commands, commandName, args)
      ensures forall i :: 0 <= i < |calls| ==> calls[i].args == args && calls[i].index < |commands|
    {
      var cmds := commands;
      calls := [];
      for k := 0 to |cmds|
        invariant calls == Dispatched(cmds[..k], commandName, args)
      {
        assert cmds[..k + 1][..k] == cmds[..k];
        if EqIgnoreAsciiCase(commandName, cmds[k].name) {
          calls := calls + [Invocation(k, args)];
        }
      }
      assert cmds[..|cmds|] == cmds;
      DispatchedExactly(cmds, commandName, args);
    }

    /** One iteration of `receive_commands` after tokenising: the
        built-ins, then every matching registered command, then the notice
        if nothing handled the line. */
    method HandleLine(args: seq<string>) returns (r: StepResult)
      requires |args| > 0
      ensures r == Step(commands, args)
    {
      var commandName := args[0];
      var receiving := true;
      var handledInput := false;
      var printed: seq<string> := [];

      if EqIgnoreAsciiCase(commandName, QuitName) {
        receiving := false;
        handledInput := true;
      }
      if EqIgnoreAsciiCase(commandName, HelpName) {
        printed := PrintHelpListing();
        handledInput := true;
      }
      var calls := CallMatching(commandName, args[1..]);
      if calls != [] {
        handledInput := true;
      }
      if !handledInput {
        printed := printed + [UnknownCommand];
      }
      r := StepResult(receiving, printed, calls);
    }

    /** `receive_commands`: read, tokenise and dispatch lines until `quit`,
        or until a line without tokens makes `args[0]` panic. */
    method ReceiveCommands(lines: seq<Option<string>>) returns (r: SessionRun)
      ensures r == Receive(commands, lines)
    {
      var cmds := commands;
      var receiving := true;
      var i := 0;
      var steps: seq<StepResult> := [];
      while receiving
        invariant 0 <= i <= |lines|
        invariant receiving ==> Receive(cmds, lines) == Resume(steps, ReceiveFrom(cmds, lines, i))
        invariant !receiving ==> Receive(cmds, lines) == SessionRun(steps, Quit)
        decreases |lines| - i
      {
        var args := GetCommand(if i < |lines| then lines[i] else None);
        if args == [] {
          // `args[0]` is out of bounds
          ReceiveFromEmpty(cmds, lines, i);
          r := SessionRun(steps, Crashed);
          return;
        }
        var result := HandleLine(args);
        ReceiveFromStep(cmds, lines, i, steps);
        steps := steps + [result];
        receiving := result.keepRunning;
        i := i + 1;
      }
      r := SessionRun(steps, Quit);
    }

    /** `start`: log in, then either serve commands or shut down. */
    method Start(attempts: seq<Attempt>, answers: seq<Option<bool>>, lines: seq<Option<string>>)
      returns (printed: seq<string>, run: LoginRun, session: Option<SessionRun>)
      modifies this
      ensures run == LoginSpec(attempts, answers)
      ensures hostUrl == old(hostUrl) && commands == old(commands)
      ensures run.end.LoggedIn? ==> sessionInfo == Some(run.end.session)
      ensures run.end.Declined? ==> sessionInfo == None
      ensures run.end.Aborted? || run.end.ScriptEnded? ==>
        sessionInfo == if run.confirmations == 0 then old(sessionInfo) else None
      ensures session.Some? <==> !run.end.Aborted? && sessionInfo.Some?
      ensures old(sessionInfo) == None ==> (session.Some? <==> run.end.LoggedIn?)
      ensures session.Some? ==> session.value == Receive(commands, lines)
      ensures printed == [StartNotice(hostUrl)]
        + (if run.end.Aborted? then [] else if session.Some? then [ReadyNotice] else [ShutdownNotice])
    {
      printed := [StartNotice(hostUrl)];
      var calls;
      run, calls := Login(attempts, answers);
      if run.end.Aborted? {
        // the panic in `login` ends the process
        session := None;
        return;
      }
      if sessionInfo.Some? {
        printed := printed + [ReadyNotice];
        var r := ReceiveCommands(lines);
        session := Some(r);
      } else {
        printed := printed + [ShutdownNotice];
        session := None;
      }
    }
  }
}
