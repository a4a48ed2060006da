# cli-ai in Dafny

A model of the decision logic of `clai`, a command-line tool that turns a natural-language
request into a shell command with a remote language model and hands the command to the user.
The model covers four pieces:

- **Shell detection** (`shell.dfy`, module `Shell`). Detection is a pure function of an
  environment snapshot `Env`. The snapshot holds the optional variables `SHELL`, `ComSpec` and
  `PSModulePath` and the platform name. A variable counts only when it is set and non-empty,
  as JavaScript truthiness demands. The first matching rule wins. The same rules are also
  written as an ordered table, `Rules`, read by `FirstMatch`, and detection is proved to agree
  with it. `ShellInfo` is `getShellInfo`.
- **Configuration** (`config.dfy`, module `Configuration`). `validateConfig` is a function of the
  values of `OPENROUTER_API_KEY` and `DEFAULT_MODEL`.
- **Delivery** (`clipboard.dfy`, module `Clipboard`). This covers the quote escaping, the
  shell-specific history command line, and `copyToClipboardOrHistory`. The delivery is a method
  that sets its two success flags step by step, as the source does. It returns the ordered trace
  of its effects: the clipboard write, the history command run, and the notices shown.
  `clipboardy.write` and `execSync` are oracles passed in as functions.
- **The action body** (`cli.dfy`, module `Cli`). The `.action` callback is the method `Action`,
  with the `while (true)` confirmation loop. It is proved equal to a state machine: `Start` (the
  first generation, its validation and the `--yes` shortcut), then `Step` once per user choice
  (`Steps`). The generator is an oracle giving the outcome of its i-th call. The validator is
  an arbitrary predicate. The user's answers are a finite sequence of choice values. A run that
  has used every answer and is still at the prompt is reported as waiting, with no exit status.

`strings.dfy` (module `Strings`) models the JavaScript string operations used:
`includes`, `toLowerCase`, `join` and truthiness. `wrappers.dfy` holds `Option`, `Result` and
`Thrown`, a thrown JavaScript value: an `Error` with a message, or something else.

Three facts about the program shape the delivery model:

- The program has no headless-environment check.
- `copyToClipboardOrHistory` always tries both the clipboard and the history; the history is not
  a fallback of the clipboard.
- For `cmd`, adding to history always fails.

## Model

| member | source | states |
|---|---|---|
| `Shell.DetectShell` | src/shell.ts:7-29 | Detection never yields `unknown`. |
| `Shell.Rules` | src/shell.ts:9-28 | The precedence table has eight rules, and its last rule (the non-win32 default) always fires, so some rule always decides. |
| `Shell.FirstMatchIff` | src/shell.ts:7-29 | First-match-wins: the table yields a variant exactly when some rule giving it fires and no earlier rule fires. |
| `Shell.DetectShellIsFirstMatch` | src/shell.ts:7-29 | Detection equals the first-match reading of the precedence table, for every environment. |
| `Shell.BashInShellWins` | src/shell.ts:9-12 | A `SHELL` that mentions bash gives bash, whatever `ComSpec`, `PSModulePath` and the platform say. |
| `Shell.ShellPathOrder` | src/shell.ts:12-14 | Within `SHELL`, bash beats zsh and zsh beats fish. |
| `Shell.ComSpecRules` | src/shell.ts:17-22 | If `SHELL` names none of its three shells, a `ComSpec` mentioning powershell gives powershell; otherwise one mentioning cmd gives cmd. |
| `Shell.PlatformDefault` | src/shell.ts:25-28 | If no variable rule matched, a non-empty `PSModulePath` gives powershell; otherwise the result is cmd on win32 and bash elsewhere. |
| `Shell.EmptyModulePathIgnored` | src/shell.ts:25 | An empty `PSModulePath` behaves exactly like an unset one. |
| `Shell.MentionsIgnoresCase` | src/shell.ts:9-20 | Whether a variable's value mentions a word does not depend on the case of the value. |
| `Shell.DetectionIgnoresCase` | src/shell.ts:9-18 | Lower-casing the value of `SHELL` or of `ComSpec` never changes the detected shell. |
| `Shell.UpperCaseZsh` | src/shell.ts:9-13 | `SHELL=/BIN/ZSH` gives zsh. |
| `Shell.ShellInfo` | src/shell.ts:36-50 | Every variant gets a non-empty description. |
| `Shell.ShellInfoDistinguishes` | src/shell.ts:36-50 | Two variants share a description exactly when they are equal or both are in {bash, zsh}. |
| `Shell.FromName` | src/cli.ts:18 | A `--shell` value selects a known variant only when it is that variant's own name. |
| `Shell.FromNameOfName` | src/shell.ts:1 | Every variant is recovered from its name. |
| `Configuration.ValidateConfig` | src/config.ts:12-27 | It fails, with the missing-key message, exactly when the key is unset or empty. On success the key is returned unchanged. The model is `DEFAULT_MODEL` when that is non-empty, else `google/gemini-2.5-flash-lite`. |
| `Configuration.ConfigNonEmpty` | src/config.ts:14-21 | A validated configuration has a non-empty key and a non-empty model. |
| `Configuration.ConfigRoundTrip` | src/config.ts:12-27 | Validating the values of a validated configuration gives back the same configuration. |
| `Configuration.EmptyIsUnset` | src/config.ts:13-16 | An empty key or model is treated exactly as an unset one. |
| `Strings.Includes` | src/shell.ts:12-21 | `includes` always finds the empty word and never finds a word longer than the text. |
| `Strings.IncludesIff` | src/shell.ts:12-21 | The left-to-right search finds a word exactly when the word occurs somewhere in the text. |
| `Strings.ToLower` | src/shell.ts:9-18 | Lower-casing keeps the length and maps each character on its own: A-Z to a-z, everything else unchanged. |
| `Strings.JoinAppend` | src/cli.ts:24 | Joining no words gives "", one word gives that word, and joining `a + b` (both non-empty) gives the join of `a`, one separator, then the join of `b`. |
| `Strings.JoinLength` | src/cli.ts:24 | The length of a non-empty join is the words' total length plus one separator per pair of neighbours. |
| `Clipboard.Escape` | src/clipboard.ts:52 | The escaped text is as long as the input plus one for each single quote. |
| `Clipboard.EscapeAppend` | src/clipboard.ts:52 | Escaping works piece by piece: escaping `a + b` gives `Escape(a) + Escape(b)`. |
| `Clipboard.EscapeUnchangedIff` | src/clipboard.ts:52 | Escaping leaves a command unchanged exactly when the command has no single quote. |
| `Clipboard.EscapedQuotesArePreceded` | src/clipboard.ts:52 | In escaped text every single quote comes right after a backslash. |
| `Clipboard.UnescapeEscape` | src/clipboard.ts:52 | Escaping loses nothing: turning each backslash-quote back into a quote gives the original command. |
| `Clipboard.HistoryCommand` | src/clipboard.ts:54-73 | There is a command line exactly for bash, zsh, fish and powershell, and in it the escaped command stands between single quotes. For cmd and unknown the result is an `Error` with a non-empty message. |
| `Clipboard.HistoryCommandShape` | src/clipboard.ts:54-73 | For bash, zsh and fish the line is `history -s '<escaped>'`. For powershell it is `powershell -Command "Add-History -InputObject '<escaped>'"`. There is no line exactly for cmd and unknown. |
| `Clipboard.AddToShellHistory` | src/clipboard.ts:50-74 | The history append succeeds exactly when the shell has a history line and running that line succeeds. On success it reports that line. |
| `Clipboard.NoHistoryForCmdOrUnknown` | src/clipboard.ts:67-72 | For cmd and unknown shells the history append fails, whatever `execSync` would do. |
| `Clipboard.DeliveryEffects` | src/clipboard.ts:20-41 | A delivery has two to four effects. The first is the clipboard write of the command, every notice carries the command, and the only command line run is the shell's history line. |
| `Clipboard.CopyToClipboardOrHistory` | src/clipboard.ts:15-42 | The clipboard flag is the write's success and the history flag is the append's success. The effects are exactly the delivery trace, and no error escapes. |
| `Clipboard.FallbackIffBothFailed` | src/clipboard.ts:38-41 | The "Generated command" fallback notice appears exactly when both the clipboard write and the history append failed. |
| `Clipboard.HistoryIndependentOfClipboard` | src/clipboard.ts:20-36 | The history command run, and whether it is reported added, do not depend on the clipboard's outcome. |
| `Clipboard.BothAttempted` | src/clipboard.ts:20-36 | The clipboard write comes first. A shell with a history line always has that line run. |
| `Clipboard.CommandAlwaysReported` | src/clipboard.ts:20-41 | Every delivery shows the command in at least one notice. |
| `Clipboard.CopyToClipboard` | src/clipboard.ts:80-86 | It succeeds exactly when the write succeeds. Otherwise it throws an `Error` whose message starts with "Failed to copy to clipboard: ". |
| `Clipboard.ClipboardFailureKeepsReason` | src/clipboard.ts:83-85 | After that prefix comes the thrown error's message, or "Unknown error" for a non-`Error` value. |
| `Cli.Action` | src/cli.ts:20-92 | The action method, with its confirmation loop, ends in exactly the session that the state machine `Run` gives for the same oracles and choices. |
| `Cli.ExitCode` | src/cli.ts:78-90 | A run that failed exits 1, and only a failed run does. A delivered or cancelled run exits 0. A run still at the prompt has no status yet. |
| `Cli.HintFor` | src/cli.ts:82-88 | The API-key tip is chosen exactly when the error message contains "API key", even if it also contains "model". The model tip is chosen only otherwise. A non-`Error` value gets no tip. |
| `Cli.Start` | src/cli.ts:24-41 | The first generation makes one request and shows no prompt. The run fails exactly when that generation throws or its command is invalid. With `--yes` a valid command is delivered at once, its only delivery. Without `--yes` the run goes to the prompt. |
| `Cli.Step` | src/cli.ts:44-75 | One pass shows the current command. Accept delivers it and makes no request. Regenerate makes exactly one request. If the generator throws, the run fails with what it threw. Otherwise the run stays at the prompt with the new command, and that command is added to the warnings exactly when it fails validation. Any other choice cancels with no request and no delivery. Only regenerate can add a warning. |
| `Cli.Steps` | src/cli.ts:44-76 | A finished session is never changed. The loop only appends requests and prompts, at most one prompt per choice. |
| `Cli.Run` | src/cli.ts:20-92 | A whole run makes at least one request, the first with the invocation's query, shell and model. It shows at most one prompt per choice and none with `--yes`. |
| `Cli.StartConsistent` | src/cli.ts:24-41 | The session after the first generation is consistent: its request is the invocation's, and the shown or delivered command is that generation's output. |
| `Cli.StepsConsistent` | src/cli.ts:44-76 | The loop keeps the session consistent: every request is the same, the shown or delivered command is the latest one generated, at most that one command is delivered, and a failure is what the latest generator call threw or the first command's validation error. |
| `Cli.DeliversLatestCommand` | src/cli.ts:24-76 | In every run, each generation gets the words joined by single spaces. At most one command is delivered, and it is the latest one generated, valid or not. |
| `Cli.FailuresAreCaughtErrors` | src/cli.ts:29-90 | A failed run exits 1. Its error is either what the latest generator call threw (first call or any regeneration) or the validation error of an invalid first command. |
| `Cli.RegenerateThrowsFails` | src/cli.ts:65-90 | A regeneration that throws ends the run at once with that error and status 1. It makes one more request and no delivery, whatever the later answers. |
| `Cli.FirstInvalidStops` | src/cli.ts:32-34 | A first command that fails validation ends the run with the validation error and status 1, with no prompt and no delivery. |
| `Cli.FirstGenerationThrows` | src/cli.ts:29 | A first generation that throws ends the run with that error and status 1. |
| `Cli.YesDeliversAtOnce` | src/cli.ts:37-41 | With `--yes` and a valid first command there is one generation, one delivery of that command and no prompt. The status is 0 whatever the answers. |
| `Cli.RegeneratesThenAcceptFrom` | src/cli.ts:44-71 | From any prompt, k regenerates then accept add exactly k generations and k+1 prompts. They deliver exactly once, the last command generated. |
| `Cli.RegeneratesThenAccept` | src/cli.ts:44-71 | A run of k regenerates then accept makes k+1 generations and k+1 prompts. It delivers only the (k+1)-th command generated and exits 0. |
| `Cli.TwoRegenerationsThenAccept` | src/cli.ts:60-71 | Regenerate, regenerate, accept makes three generations and delivers once. |
| `Cli.OtherChoiceCancels` | src/cli.ts:72-75 | Any choice other than accept or regenerate ends the loop: the run is cancelled, nothing more is delivered, and the status is 0. |
| `Cli.StepProgress` | src/cli.ts:60-75 | Each pass shows the command once. The run finishes exactly when the choice is not regenerate or the regeneration throws. A pass that stays at the prompt adds exactly one generation. Only regenerate calls the generator. |
| `Cli.StepsBounds` | src/cli.ts:44-76 | The loop makes at most one generation per prompt and one prompt per choice. A loop still at the prompt has used every choice, all of them regenerate. |
| `Cli.RunBounds` | src/cli.ts:29-76 | A run makes at most one generation more than it shows prompts, and at most one more than it has choices. `--yes` shows no prompt, and a waiting run has answered regenerate every time. |

## Left out

- The network call in `generateCommand` and the check in `validateCommand`: the generator is not part of this model. Generation is an oracle indexed by call number, and validity is an arbitrary predicate.
- `clipboardy.write` and `execSync`: they are foreign calls. Each is an oracle on the text it is given. The model does not capture what a history command does to the user's real shell history.
- Shell-injection safety of the escaping is not claimed. Inside POSIX single quotes a backslash does not escape anything.
- Argument parsing, interactive prompting and `--help` output: they are library plumbing. The words, the options and the user's answers are inputs.
- Console texts and emoji: only which notice is shown, and for which command, is modelled. The banner built from `getShellInfo` and the model name is not modelled.
- Loading `.env` and evaluating the configuration at import time: this is file I/O. `ValidateConfig` takes the two variable values as arguments.
- `bin/clai.js`: it is a module loader with no decision logic.
- `Strings.ToLower`: only the ASCII letters A-Z are lower-cased. JavaScript's full Unicode case mapping is not modelled.
- `Clipboard.HistoryCommand`: for an unsupported shell, the error message carries the name `unknown`. The raw `--shell` text the program would print is not modelled. `Shell.FromName` maps every unrecognised `--shell` value to that variant.
- `Shell.FromName` stands alone: `Cli.Invocation` holds the shell already read as a variant, so reading the raw `--shell` text into the action is not modelled.
- A prompt that is aborted (for example by interrupting the process) is not modelled. A run whose answers run out is shown waiting at the prompt.
