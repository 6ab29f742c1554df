# TestClient: session and command dispatch, modelled in Dafny

TestClient is a terminal client for a music-shop backend. It logs an
operator in over HTTP and then reads command lines. Each line goes to the
built-in commands `quit` and `help` and to every registered command whose
name matches. This project models the logic of that client:

- `wrappers.dfy`: `Option` and `Result`.
- `model.dfy` (src/model.rs): commands and their help text, `LoginResult`,
  `Reason`, songs, carriers and products. It includes the loops that build
  the songs and carriers sections of a product's display.
- `cli_interaction.dfy` (src/cli_interaction.rs): the `get_command`
  tokeniser, which behaves like `split_whitespace` with Rust's
  `char::is_whitespace`. It also holds the defaults the credential and
  retry prompts fall back to when they fail.
- `communication.dfy` (src/communication.rs): the reply `login` makes of
  the response status and the parsed body, the session-id slice, the login
  request body, and the URLs of `search` and `get_product`.
- `client.dfy` (src/client.rs): the `Client` class with its fields
  `hostUrl`, `sessionInfo` and `commands`, plus its methods `new`,
  `add_command`, `login`, `start` and `receive_commands`.

Terminal prompts and HTTP replies are inputs, given as finite scripts:
- a prompt answer is an `Option`, where `None` is a prompt that failed;
- a login round is an `Attempt`, holding both prompt answers and the reply
  the transport gave;
- a command line past the end of its script counts as a failed prompt.

Handlers are opaque function pointers. Dispatch therefore records each call
as an `Invocation`: the index of the command in the registry, and the
argument tokens.

Each loop in the source is a method with a loop. Its contract ties the
result to a specification function:

| method | specification function |
|---|---|
| `Login` | `LoginSpec` |
| `ReceiveCommands` | `Receive` |
| `HandleLine` | `Step` |
| `GetCommand` | `Tokens` |
| `PrintHelp` | `HelpText` |
| `PrintHelpListing` | `HelpListing` |
| `CallMatching` | `Dispatched` |
| `ProductSections` | `Lines` |

Lemmas then state what the client promises about those functions.

Two behaviours of the source are modelled as written:
- `receive_commands` indexes `args[0]` without checking that the line had
  a token (src/client.rs:71), so a line without tokens panics. The model
  ends the loop with `Crashed` there.
- `login` treats only status 403 as invalid credentials. 401 and every
  other status except 200 give `Reason::Other` (src/communication.rs:66-67).

## Model

| member | source | states |
|---|---|---|
| Model.PrintHelp | src/model.rs:13-18 | exactly 1 + number-of-arguments lines: the short description first, then each argument description in order |
| Model.NewLoginResult | src/model.rs:28-35 | a fresh login result has an empty session id, an empty username and no roles |
| Model.SongDisplay | src/model.rs:132-136 | a song shows as its title, one space, then its duration |
| Model.ProductSections | src/model.rs:87-97 | the songs section is each song's display followed by a newline, in list order; so is the carriers section, with the carrier display as a parameter |
| Model.LinesAppend | src/model.rs:89-97 | pushing one more element appends exactly its line to the end of the section |
| Model.LinesSplitBack | src/model.rs:89-97 | when no rendered element contains a newline, the section splits back into exactly one line per element, in order |
| Model.SongsOnePerLine | src/model.rs:89-92 | the songs section has one line per song, and line k is song k's display |
| CliInteraction.GetCommand | src/cli_interaction.rs:5-18 | the words of the line as `split_whitespace` yields them, each non-empty and free of whitespace; a failed prompt gives no words |
| CliInteraction.GetCredentials | src/cli_interaction.rs:20-34 | a failed username or password prompt yields the empty string for that field; otherwise the field is what was typed |
| CliInteraction.RetryCredentials | src/cli_interaction.rs:36-42 | the login is retried exactly when the confirmation answered yes; a failed confirmation declines |
| CliInteraction.TokensAfterWord | src/cli_interaction.rs:11-16 | a word followed by whitespace or by the end of the line is the next token, and the rest of the line is tokenised after it |
| CliInteraction.TokensAfterBlank | src/cli_interaction.rs:11-16 | leading whitespace yields no token |
| CliInteraction.TokensAreWords | src/cli_interaction.rs:11-16 | every token is non-empty and contains no whitespace character |
| CliInteraction.NoTokensIffBlank | src/cli_interaction.rs:10-17 | a line yields no token if and only if it is empty or whitespace only |
| CliInteraction.SqueezeAppend | src/cli_interaction.rs:11-16 | removing whitespace distributes over concatenation |
| CliInteraction.TokensConcatenate | src/cli_interaction.rs:11-16 | the tokens concatenated in order equal the line with every whitespace character removed |
| CliInteraction.TokensOfJoin | src/cli_interaction.rs:11-16 | tokenising words joined by single spaces gives back the same words |
| CliInteraction.WordSplitIsTokens | src/cli_interaction.rs:11-16 | any split of the line into words separated by non-empty whitespace gaps is the token list (uniqueness) |
| CliInteraction.TokensSplit | src/cli_interaction.rs:11-16 | the token list is such a split of the line: the gaps between tokens are whitespace, and the inner ones are non-empty |
| CliInteraction.TokensAreMaximalRuns | src/cli_interaction.rs:11-16 | a word list is the token list if and only if the line is those words, left to right, separated by whitespace gaps, that is the maximal runs of non-whitespace |
| Communication.SessionIdOf | src/communication.rs:58-61 | the session id is the serialised `sessionId` without its first and last characters |
| Communication.QuotedSessionId | src/communication.rs:58-61 | for a string that needs no JSON escaping, the session id is the raw string |
| Communication.LoginRequest | src/communication.rs:36-48 | the login request posts to url + "/login" with a body of exactly the username and password fields |
| Communication.ClassifyLogin | src/communication.rs:50-68 | Ok exactly for 200 with a parsed body; InvalidCredentials exactly for 403; Other for an unparsed 200 body and every other status, 401 included; on Ok the session id is sliced, the username is kept in serialised form and there are no roles |
| Communication.SearchUrl | src/communication.rs:22-26 | the search URL is the host URL, then "/products?search=", then the query, unencoded |
| Communication.SearchUrlInjective | src/communication.rs:22-26 | on one host, distinct queries give distinct search URLs |
| Communication.SearchRequest | src/communication.rs:22-31 | `search` sends a GET to the search URL carrying the session-id header |
| Communication.ProductUrl | src/communication.rs:6-9 | the product URL is the host URL, then "/products/", then the id |
| Communication.GetProduct | src/communication.rs:6-19 | `get_product` sends a GET to the product URL with the session-id header; a parse error becomes None and a parsed product is returned as it is |
| Client.LoginSkipsRetries | src/client.rs:21-44 | rounds rejected as invalid credentials and confirmed for retry change nothing about how the loop ends |
| Client.LoginStopsAt | src/client.rs:21-40 | after any number of confirmed retries, the round that is not retried decides the end: a success stores exactly that reply's session; `Other` aborts without asking to retry, even on the first round; a declined retry ends with no session |
| Client.LoginRunsOut | src/client.rs:21-44 | no retry bound exists: retries confirmed to the end of the script keep prompting for credentials |
| Client.LoginRunShape | src/client.rs:21-44 | every run of the login loop: all rounds but the last were rejected and retried, and the last round explains the end (session equal to its reply, its `Other`, or its declined confirmation) |
| Client.DispatchedSound | src/client.rs:95-100 | every handler call is of a registered command whose name matches ignoring ASCII case, with the tokens after the first |
| Client.DispatchedOrdered | src/client.rs:95-100 | handler calls follow registration order |
| Client.DispatchedComplete | src/client.rs:95-100 | every registered command whose name matches is called, and no other |
| Client.DispatchedExactly | src/client.rs:95-100 | the three facts together: matching commands, and only those, are called in registration order with the remaining tokens |
| Client.StepDispatch | src/client.rs:71-104 | in one iteration, exactly the matching registered commands run, in registration order, with `args[1..]`; built-ins shadow none of them |
| Client.StepQuit | src/client.rs:75-78 | the loop stops after this line if and only if the first token is `quit` ignoring ASCII case, whatever the trailing tokens |
| Client.StepHelp | src/client.rs:80-93 | `help` in any ASCII case prints the help listing, and nothing else |
| Client.HelpBlockAt | src/client.rs:87-91 | the listing holds each registered command's block (header, help, divider) after those of the earlier commands and before the later ones |
| Client.BlocksSplit | src/client.rs:87-91 | the listing of a registry is the listing of any prefix followed by the listing of the rest |
| Client.StepUnknown | src/client.rs:102-104 | "Unknown command" is printed, with no call, if and only if neither a built-in nor a registered command matched |
| Client.MixedCaseMatches | src/client.rs:96-97 | `SeArCh foo` calls a command registered as `search` with the single argument `foo` |
| Client.ReceiveFromShape | src/client.rs:66-106 | from any line on, every handled line had tokens and was one step; the loop went on after all but the last; it ended with `Quit` exactly when the last step was a quit, and otherwise on a line with no token |
| Client.ReceiveShape | src/client.rs:66-106 | the same shape for a whole run of `receive_commands` |
| Client.Client.constructor | src/client.rs:13-19 | a new client has the given URL, no session and no commands |
| Client.Client.AddCommand | src/client.rs:58-60 | the command is appended at the end of the registry; earlier commands, their order, the URL and the session are unchanged |
| Client.Client.Login | src/client.rs:21-44 | the loop ends as `LoginSpec` says and calls the transport once per prompt with the prompts' defaults applied; after a login the session is exactly the final reply's; after a declined retry there is no session; URL and registry are unchanged |
| Client.Client.PrintHelpListing | src/client.rs:80-93 | the help entry, then the quit entry, then each registered command's header, help and divider, in registration order |
| Client.Client.CallMatching | src/client.rs:95-100 | calls every matching command in registration order, as `Dispatched` says, with the given arguments |
| Client.Client.HandleLine | src/client.rs:71-104 | one iteration on a non-empty token list is exactly `Step`: the quit flag, the help listing, the handler calls, and "Unknown command" when nothing matched |
| Client.Client.ReceiveCommands | src/client.rs:66-106 | the whole loop is `Receive`: the steps of the lines read, ending on `quit` or on a line without tokens |
| Client.Client.Start | src/client.rs:46-56 | prints the start notice, logs in, then enters the command loop if and only if a session was stored (announcing it), and otherwise shuts down; the stored session is the final reply's after a login and none after a declined retry; a `Reason::Other` abort prints nothing more |

## Left out

- The HTTP sends and their `.expect` panics on transport failure are not modelled. Response status and parse results are inputs.
- JSON deserialisation is not modelled, and neither is the `unwrap` in `search`. The parser's outcome is an input.
- The search result list is not modelled. `search` is modelled only up to the request it sends.
- Prompt rendering and password masking are not modelled, because they are terminal UI.
- The `"tf-test"` username default and `allow_empty(false)` are not modelled. The operator's answer, or a failed prompt, is an input.
- `ProductOverview` display and the `Carrier` display are not modelled, because they format `f32`. The carrier display is a parameter of `ProductSections`.
- The literal `Product` header is not modelled. It is fixed text, and its whitespace depends on Rust's line-continuation rules.
- Command handler bodies are not modelled, because they are opaque function pointers. Calls are recorded as `Invocation`s.
- A retry confirmation past the end of its script counts as a failed prompt, that is, as declining (`AnswerAt`).
- `shutdown` is modelled only as the "Shutting down." line that `Start` prints.
- src/main.rs is not part of this model. It is a stale entry point that does not build against the other modules.
- Communication.ClassifyLogin: requires that the serialised `sessionId` of a 200 reply is at least two characters long. A shorter one, such as a one-digit number, makes the source's slice panic. That panic is not modelled.
- Client.Client.Login: a script whose every round is rejected and confirmed ends as `ScriptEnded`. The source would go on prompting. `LoginRunsOut` states that no bound stops it before the script does.
- Client.Client.Start: after a `Reason::Other` abort, `sessionInfo` is left as the loop last set it, and no further output is modelled. The process would have ended.
