/** Delivery of a generated command to the clipboard and the shell history
    (src/clipboard.ts). The clipboard write and `execSync` are foreign calls;
    each is an oracle that says whether the call with a given text succeeds. */
module Clipboard {
  import opened Wrappers
  import opened Strings
  import opened Shell

  /** The clipboard write: `None` when writing `text` succeeds, otherwise the value it throws. */
  type ClipboardOracle = string -> Option<Thrown>

  /** `execSync`: whether running a command line succeeds. */
  type ExecOracle = string -> bool

  /** `command.replace(/'/g, "\\'")`: every single quote becomes backslash-quote. */
  function Escape(s: string): (r: string)
    ensures |r| == |s| + Count(s, '\'')
  {
    if s == [] then []
    else (if s[0] == '\'' then "\\'" else [s[0]]) + Escape(s[1..])
  }

  /** Escaping distributes over concatenation, so it works character by character. */
  lemma {:induction false} EscapeAppend(a: string, b: string)
    ensures Escape(a + b) == Escape(a) + Escape(b)
  {
    if a != [] {
      var head := if a[0] == '\'' then "\\'" else [a[0]];
      assert (a + b)[0] == a[0];
      assert (a + b)[1..] == a[1..] + b;
      assert Escape(a + b) == head + Escape(a[1..] + b);
      EscapeAppend(a[1..], b);
      assert Escape(a) == head + Escape(a[1..]);
    } else {
      assert a + b == b;
    }
  }

  /** A command is left unchanged exactly when it holds no single quote. */
  lemma {:induction false} EscapeUnchangedIff(s: string)
    ensures Escape(s) == s <==> '\'' !in s
  {
    CountPositive(s, '\'');
    if '\'' !in s && s != [] {
      assert '\'' !in s[1..];
      EscapeUnchangedIff(s[1..]);
    }
  }

  /** In the escaped text every single quote is immediately preceded by a backslash. */
  lemma {:induction false} EscapedQuotesArePreceded(s: string)
    ensures forall i :: 0 <= i < |Escape(s)| && Escape(s)[i] == '\'' ==> i > 0 && Escape(s)[i - 1] == '\\'
  {
    if s != [] {
      EscapedQuotesArePreceded(s[1..]);
      var head := if s[0] == '\'' then "\\'" else [s[0]];
      var r, tail := Escape(s), Escape(s[1..]);
      assert r == head + tail;
      forall i | 0 <= i < |r| && r[i] == '\'' ensures i > 0 && r[i - 1] == '\\' {
        if i >= |head| {
          assert r[i] == tail[i - |head|];
          if i - |head| > 0 {
            assert r[i - 1] == tail[i - |head| - 1];
          }
        }
      }
    }
  }

  /** Turns every backslash-quote pair back into a single quote, left to right. */
  function Unescape(s: string): string {
    if |s| >= 2 && s[0] == '\\' && s[1] == '\'' then "'" + Unescape(s[2..])
    else if s == [] then []
    else [s[0]] + Unescape(s[1..])
  }

  /** Escaped text never starts with a bare single quote. */
  lemma EscapeHeadIsNotQuote(s: string)
    ensures Escape(s) != [] ==> Escape(s)[0] != '\''
  {
  }

  /** Escaping loses nothing: unescaping gives back the original command. */
  lemma {:induction false} UnescapeEscape(s: string)
    ensures Unescape(Escape(s)) == s
  {
    if s != [] {
      var tail := Escape(s[1..]);
      UnescapeEscape(s[1..]);
      if s[0] == '\'' {
        assert Escape(s) == "\\'" + tail;
        assert Escape(s)[2..] == tail;
      } else {
        EscapeHeadIsNotQuote(s[1..]);
        assert Escape(s) == [s[0]] + tail;
        assert Escape(s)[1..] == tail;
      }
      assert s == [s[0]] + s[1..];
    }
  }

  /** Why a history append did not happen. */
  datatype HistoryError = NoHistory(thrown: Thrown) | ExecFailed(line: string)

  /** The command line `addToShellHistory` runs for `shell`, or the error it throws
      before running anything. */
  function HistoryCommand(command: string, shell: ShellType): (r: Result<string, Thrown>)
    ensures r.Ok? <==> shell !in {Cmd, Unknown}
    ensures r.Ok? ==> OccursAtEscaped(r.value, command)
    ensures r.Err? ==> r.error.Error? && r.error.message != ""
  {
    match shell
    case Bash | Zsh | Fish =>
      var line := "history -s '" + Escape(command) + "'";
      assert line[12..12 + |Escape(command)| + 1] == Escape(command) + "'";
      assert OccursAt(line, Escape(command) + "'", 12);
      Ok(line)
    case PowerShell =>
      var line := "powershell -Command \"Add-History -InputObject '" + Escape(command) + "'\"";
      assert line[47..47 + |Escape(command)| + 1] == Escape(command) + "'";
      assert OccursAt(line, Escape(command) + "'", 47);
      Ok(line)
    case Cmd => Err(Error("CMD does not support persistent history"))
    case Unknown => Err(Error("Unsupported shell type: " + Name(shell)))
  }

  /** The lines run for each shell: exactly the templates `addToShellHistory` builds around the escaped command. */
  lemma HistoryCommandShape(command: string, shell: ShellType)
    ensures shell in {Bash, Zsh, Fish} ==>
      HistoryCommand(command, shell) == Ok("history -s '" + Escape(command) + "'")
    ensures shell == PowerShell ==>
      HistoryCommand(command, shell) == Ok("powershell -Command \"Add-History -InputObject '" + Escape(command) + "'\"")
    ensures HistoryCommand(command, shell).Err? <==> shell in {Cmd, Unknown}
  {
  }

  /** The escaped command sits inside single quotes in `line`. */
  ghost predicate OccursAtEscaped(line: string, command: string) {
    exists i :: 0 < i && OccursAt(line, Escape(command) + "'", i) && line[i - 1] == '\''
  }

  /** `addToShellHistory`: the line that was run, or why nothing was added. */
  function AddToShellHistory(command: string, shell: ShellType, exec: ExecOracle): (r: Result<string, HistoryError>)
    ensures r.Ok? <==> HistoryCommand(command, shell).Ok? && exec(HistoryCommand(command, shell).value)
    ensures r.Ok? ==> r.value == HistoryCommand(command, shell).value
  {
    match HistoryCommand(command, shell)
    case Err(e) => Err(NoHistory(e))
    case Ok(line) => if exec(line) then Ok(line) else Err(ExecFailed(line))
  }

  /** cmd and unknown shells never get a history entry, whatever the oracle does. */
  lemma NoHistoryForCmdOrUnknown(command: string, shell: ShellType, exec: ExecOracle)
    requires shell in {Cmd, Unknown}
    ensures AddToShellHistory(command, shell, exec).Err?
  {
  }

  /** What the user is told. */
  datatype Notice = CopiedToClipboard(command: string) | AddedToHistory(command: string)
                  | GeneratedCommand(command: string)

  /** The observable effects of a delivery, in order. */
  datatype Effect = ClipboardWrite(text: string) | Exec(line: string) | Log(notice: Notice)

  /** The effects `copyToClipboardOrHistory` has: the clipboard write, its notice on
      success, the history command (if the shell has one), its notice on success,
      and the fallback notice when both failed. */
  function DeliveryEffects(command: string, shell: ShellType, clipboard: ClipboardOracle, exec: ExecOracle): (r: seq<Effect>)
    ensures 2 <= |r| <= 4 && r[0] == ClipboardWrite(command)
    ensures forall e :: e in r && e.Log? ==> e.notice.command == command
    ensures forall e :: e in r && e.Exec? ==> HistoryCommand(command, shell) == Ok(e.line)
  {
    var copied := clipboard(command).None?;
    var added := AddToShellHistory(command, shell, exec).Ok?;
    [ClipboardWrite(command)]
    + (if copied then [Log(CopiedToClipboard(command))] else [])
    + (if HistoryCommand(command, shell).Ok? then [Exec(HistoryCommand(command, shell).value)] else [])
    + (if added then [Log(AddedToHistory(command))] else [])
    + (if !copied && !added then [Log(GeneratedCommand(command))] else [])
  }

  /** `copyToClipboardOrHistory`: tries the clipboard, then the history, and falls back to
      showing the command. It never throws. */
  method CopyToClipboardOrHistory(command: string, shell: ShellType, clipboard: ClipboardOracle, exec: ExecOracle)
    returns (clipboardSuccess: bool, historySuccess: bool, effects: seq<Effect>)
    ensures clipboardSuccess <==> clipboard(command).None?
    ensures historySuccess <==> AddToShellHistory(command, shell, exec).Ok?
    ensures effects == DeliveryEffects(command, shell, clipboard, exec)
  {
    clipboardSuccess, historySuccess := false, false;
    effects := [ClipboardWrite(command)];
    if clipboard(command).None? {
      clipboardSuccess := true;
      effects := effects + [Log(CopiedToClipboard(command))];
    }
    var line := HistoryCommand(command, shell);
    if line.Ok? {
      effects := effects + [Exec(line.value)];
      if exec(line.value) {
        historySuccess := true;
        effects := effects + [Log(AddedToHistory(command))];
      }
    }
    if !clipboardSuccess && !historySuccess {
      effects := effects + [Log(GeneratedCommand(command))];
    }
  }

  /** The fallback notice appears exactly when both the clipboard and the history failed. */
  lemma FallbackIffBothFailed(command: string, shell: ShellType, clipboard: ClipboardOracle, exec: ExecOracle)
    ensures Log(GeneratedCommand(command)) in DeliveryEffects(command, shell, clipboard, exec) <==>
            clipboard(command).Some? && AddToShellHistory(command, shell, exec).Err?
  {
  }

  /** The history is tried whatever the clipboard did: the history part of the
      effects does not depend on the clipboard oracle. */
  lemma HistoryIndependentOfClipboard(command: string, shell: ShellType, c1: ClipboardOracle,
                                      c2: ClipboardOracle, exec: ExecOracle)
    ensures forall line :: Exec(line) in DeliveryEffects(command, shell, c1, exec) <==>
                           Exec(line) in DeliveryEffects(command, shell, c2, exec)
    ensures Log(AddedToHistory(command)) in DeliveryEffects(command, shell, c1, exec) <==>
            Log(AddedToHistory(command)) in DeliveryEffects(command, shell, c2, exec)
  {
  }

  /** Both attempts are made: the clipboard write comes first, and a shell with a
      history command always has it run. */
  lemma BothAttempted(command: string, shell: ShellType, clipboard: ClipboardOracle, exec: ExecOracle)
    ensures DeliveryEffects(command, shell, clipboard, exec)[0] == ClipboardWrite(command)
    ensures HistoryCommand(command, shell).Ok? ==>
            Exec(HistoryCommand(command, shell).value) in DeliveryEffects(command, shell, clipboard, exec)
  {
  }

  /** The user is always told the command by at least one notice. */
  lemma CommandAlwaysReported(command: string, shell: ShellType, clipboard: ClipboardOracle, exec: ExecOracle)
    ensures exists e :: e in DeliveryEffects(command, shell, clipboard, exec) && e.Log? && e.notice.command == command
  {
    var effects := DeliveryEffects(command, shell, clipboard, exec);
    if clipboard(command).None? {
      assert Log(CopiedToClipboard(command)) in effects;
    } else if AddToShellHistory(command, shell, exec).Ok? {
      assert Log(AddedToHistory(command)) in effects;
    } else {
      assert Log(GeneratedCommand(command)) in effects;
    }
  }

  /** The prefix of the error `copyToClipboard` throws. */
  const ClipboardFailurePrefix: string := "Failed to copy to clipboard: "

  /** `copyToClipboard`: succeeds when the write does, otherwise wraps what was thrown. */
  function CopyToClipboard(text: string, clipboard: ClipboardOracle): (r: Result<(), Thrown>)
    ensures r.Ok? <==> clipboard(text).None?
    ensures r.Err? ==> r.error.Error? && |ClipboardFailurePrefix| <= |r.error.message| &&
                       r.error.message[..|ClipboardFailurePrefix|] == ClipboardFailurePrefix
  {
    match clipboard(text)
    case None => Ok(())
    case Some(thrown) =>
      var reason := if thrown.Error? then thrown.message else "Unknown error";
      Err(Error(ClipboardFailurePrefix + reason))
  }

  /** The wrapped message keeps the original one after the prefix. */
  lemma ClipboardFailureKeepsReason(text: string, clipboard: ClipboardOracle)
    requires clipboard(text).Some?
    ensures var m := CopyToClipboard(text, clipboard).error.message;
            m[|ClipboardFailurePrefix|..] ==
              (if clipboard(text).value.Error? then clipboard(text).value.message else "Unknown error")
  {
  }
}
