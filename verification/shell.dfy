/** Shell detection and description (src/shell.ts). */
module Shell {
  import opened Wrappers
  import opened Strings

  /** The shell variants the tool formats commands for. */
  datatype ShellType = Bash | Zsh | PowerShell | Cmd | Fish | Unknown

  /** The part of the process environment that detection reads: the variables
      `SHELL`, `ComSpec` and `PSModulePath`, and `process.platform`. */
  datatype Env = Env(shellPath: Option<string>, comSpec: Option<string>,
                     psModulePath: Option<string>, platform: string)

  /** `v?.toLowerCase()`: absent stays absent. */
  function LowerOpt(v: Option<string>): (r: Option<string>)
    ensures r.Some? <==> v.Some?
    ensures v.Some? ==> r.value == ToLower(v.value)
  {
    match v
    case None => None
    case Some(s) => Some(ToLower(s))
  }

  /** The lower-cased variable is set, non-empty, and contains `word`. */
  predicate Mentions(v: Option<string>, word: string) {
    var lower := LowerOpt(v);
    Truthy(lower) && Includes(lower.value, word)
  }

  /** `detectShell`: the first matching rule wins. */
  function DetectShell(env: Env): (r: ShellType)
    ensures r != Unknown
  {
    if Mentions(env.shellPath, "bash") then Bash
    else if Mentions(env.shellPath, "zsh") then Zsh
    else if Mentions(env.shellPath, "fish") then Fish
    else if Mentions(env.comSpec, "powershell") then PowerShell
    else if Mentions(env.comSpec, "cmd") then Cmd
    else if Truthy(env.psModulePath) then PowerShell
    else if env.platform == "win32" then Cmd
    else Bash
  }

  /** One detection rule: whether it fires, and the variant it then gives. */
  datatype Rule = Rule(fires: bool, gives: ShellType)

  /** The detection rules of the tool in order of precedence: the `SHELL` checks,
      the `ComSpec` checks, `PSModulePath`, then the platform default. */
  function Rules(env: Env): (rules: seq<Rule>)
    ensures |rules| == 8 && rules[7].fires
  {
    [ Rule(Mentions(env.shellPath, "bash"), Bash),
      Rule(Mentions(env.shellPath, "zsh"), Zsh),
      Rule(Mentions(env.shellPath, "fish"), Fish),
      Rule(Mentions(env.comSpec, "powershell"), PowerShell),
      Rule(Mentions(env.comSpec, "cmd"), Cmd),
      Rule(Truthy(env.psModulePath), PowerShell),
      Rule(env.platform == "win32", Cmd),
      Rule(true, Bash) ]
  }

  /** The variant of the first rule that fires, if any. */
  function FirstMatch(rules: seq<Rule>): Option<ShellType> {
    if rules == [] then None
    else if rules[0].fires then Some(rules[0].gives)
    else FirstMatch(rules[1..])
  }

  /** `FirstMatch` gives `v` exactly when some rule yielding `v` fires and no
      earlier rule does. */
  lemma {:induction false} FirstMatchIff(rules: seq<Rule>, v: ShellType)
    ensures FirstMatch(rules) == Some(v) <==>
      exists i :: 0 <= i < |rules| && rules[i].fires && rules[i].gives == v &&
                  forall j :: 0 <= j < i ==> !rules[j].fires
  {
    if rules != [] {
      FirstMatchIff(rules[1..], v);
      if !rules[0].fires {
        if FirstMatch(rules) == Some(v) {
          var i :| 0 <= i < |rules[1..]| && rules[1..][i].fires && rules[1..][i].gives == v &&
                   forall j :: 0 <= j < i ==> !rules[1..][j].fires;
          assert forall j :: 0 <= j < i + 1 ==> !rules[j].fires by {
            forall j | 0 <= j < i + 1 ensures !rules[j].fires {
              if j > 0 { assert rules[j] == rules[1..][j - 1]; }
            }
          }
          assert rules[i + 1].fires && rules[i + 1].gives == v;
        } else {
          forall i | 0 <= i < |rules| && rules[i].fires && rules[i].gives == v
            ensures exists j :: 0 <= j < i && rules[j].fires
          {
            assert i > 0;
            assert rules[1..][i - 1] == rules[i];
            assert exists j :: 0 <= j < i - 1 && rules[1..][j].fires;
            var j :| 0 <= j < i - 1 && rules[1..][j].fires;
            assert rules[j + 1].fires;
          }
        }
      }
    }
  }

  /** Detection is exactly the first-match-wins reading of the rule table. */
  lemma DetectShellIsFirstMatch(env: Env)
    ensures FirstMatch(Rules(env)) == Some(DetectShell(env))
  {
    var rules := Rules(env);
    var r := DetectShell(env);
    FirstMatchIff(rules, r);
    var k := if rules[0].fires then 0 else if rules[1].fires then 1
             else if rules[2].fires then 2 else if rules[3].fires then 3
             else if rules[4].fires then 4 else if rules[5].fires then 5
             else if rules[6].fires then 6 else 7;
    assert rules[k].fires && rules[k].gives == r && forall j :: 0 <= j < k ==> !rules[j].fires;
  }

  /** A `SHELL` mentioning bash wins over every other signal. */
  lemma BashInShellWins(env: Env)
    requires Mentions(env.shellPath, "bash")
    ensures DetectShell(env) == Bash
  {
  }

  /** Within `SHELL`, bash is checked before zsh and zsh before fish. */
  lemma ShellPathOrder(env: Env)
    ensures Mentions(env.shellPath, "zsh") && !Mentions(env.shellPath, "bash") ==> DetectShell(env) == Zsh
    ensures (Mentions(env.shellPath, "fish") && !Mentions(env.shellPath, "bash") &&
             !Mentions(env.shellPath, "zsh")) ==> DetectShell(env) == Fish
  {
  }

  /** The `ComSpec` rules apply only when `SHELL` named none of its three shells;
      powershell is checked before cmd. */
  lemma ComSpecRules(env: Env)
    requires !Mentions(env.shellPath, "bash") && !Mentions(env.shellPath, "zsh") &&
             !Mentions(env.shellPath, "fish")
    ensures Mentions(env.comSpec, "powershell") ==> DetectShell(env) == PowerShell
    ensures !Mentions(env.comSpec, "powershell") && Mentions(env.comSpec, "cmd") ==> DetectShell(env) == Cmd
  {
  }

  /** When no variable rule matches, the platform decides. */
  lemma PlatformDefault(env: Env)
    requires !Mentions(env.shellPath, "bash") && !Mentions(env.shellPath, "zsh") &&
             !Mentions(env.shellPath, "fish")
    requires !Mentions(env.comSpec, "powershell") && !Mentions(env.comSpec, "cmd")
    ensures Truthy(env.psModulePath) ==> DetectShell(env) == PowerShell
    ensures !Truthy(env.psModulePath) ==> DetectShell(env) == (if env.platform == "win32" then Cmd else Bash)
  {
  }

  /** An empty `PSModulePath` is as good as an absent one. */
  lemma EmptyModulePathIgnored(env: Env)
    ensures DetectShell(env.(psModulePath := Some(""))) == DetectShell(env.(psModulePath := None))
  {
  }

  /** Whether a value mentions a word does not depend on the case of the value. */
  lemma MentionsIgnoresCase(s: string, word: string)
    ensures Mentions(Some(s), word) == Mentions(Some(ToLower(s)), word)
  {
    ToLowerIdempotent(s);
  }

  /** Matching ignores case in `SHELL` and `ComSpec`. */
  lemma DetectionIgnoresCase(env: Env, s: string)
    ensures DetectShell(env.(shellPath := Some(s))) == DetectShell(env.(shellPath := Some(ToLower(s))))
    ensures DetectShell(env.(comSpec := Some(s))) == DetectShell(env.(comSpec := Some(ToLower(s))))
  {
    MentionsIgnoresCase(s, "bash");
    MentionsIgnoresCase(s, "zsh");
    MentionsIgnoresCase(s, "fish");
    MentionsIgnoresCase(s, "powershell");
    MentionsIgnoresCase(s, "cmd");
  }

  /** The facts about the literal `/BIN/ZSH` that detection needs: it lower-cases to
      `/bin/zsh`, which contains zsh and not bash. */
  lemma BinZshFacts()
    ensures ToLower("/BIN/ZSH") == "/bin/zsh"
    ensures !Includes("/bin/zsh", "bash") && Includes("/bin/zsh", "zsh")
  {
    var lower := ToLower("/BIN/ZSH");
    assert |lower| == 8;
    assert forall i :: 0 <= i < 8 ==> lower[i] == LowerChar("/BIN/ZSH"[i]);
    var s := "/bin/zsh";
    forall i | 0 <= i && i + 4 <= |s| ensures !OccursAt(s, "bash", i) {
      assert s[i..i + 4][1] == s[i + 1] != 'a';
    }
    IncludesIff(s, "bash");
    assert OccursAt(s, "zsh", 5);
    IncludesIff(s, "zsh");
  }

  /** An upper-case `SHELL` path is recognised. */
  lemma UpperCaseZsh(env: Env)
    requires env.shellPath == Some("/BIN/ZSH")
    ensures DetectShell(env) == Zsh
  {
    BinZshFacts();
    assert LowerOpt(env.shellPath) == Some("/bin/zsh");
  }

  /** `getShellInfo`: a description of the command style for each variant. */
  function ShellInfo(shell: ShellType): (r: string)
    ensures r != ""
  {
    match shell
    case Bash | Zsh => "bash/zsh compatible command"
    case PowerShell => "PowerShell compatible command"
    case Cmd => "Windows Command Prompt compatible command"
    case Fish => "Fish shell compatible command"
    case Unknown => "cross-platform command"
  }

  /** bash and zsh share a description; every other pair of variants is told apart. */
  lemma ShellInfoDistinguishes(a: ShellType, b: ShellType)
    ensures ShellInfo(a) == ShellInfo(b) <==> a == b || (a in {Bash, Zsh} && b in {Bash, Zsh})
  {
    if a != b && !(a in {Bash, Zsh} && b in {Bash, Zsh}) {
      var x, y := ShellInfo(a), ShellInfo(b);
      assert x[0] != y[0] || |x| != |y|;
    }
  }

  /** The name a variant goes by on the command line and in messages. */
  function Name(shell: ShellType): string {
    match shell
    case Bash => "bash"
    case Zsh => "zsh"
    case PowerShell => "powershell"
    case Cmd => "cmd"
    case Fish => "fish"
    case Unknown => "unknown"
  }

  /** How a `--shell` value is read by the `switch` statements of the tool: the
      five known names select their variant, anything else behaves as `unknown`. */
  function FromName(name: string): (r: ShellType)
    ensures r != Unknown ==> Name(r) == name
  {
    if name == "bash" then Bash
    else if name == "zsh" then Zsh
    else if name == "powershell" then PowerShell
    else if name == "cmd" then Cmd
    else if name == "fish" then Fish
    else Unknown
  }

  /** Every variant survives a trip through its name. */
  lemma FromNameOfName(shell: ShellType)
    ensures FromName(Name(shell)) == shell
  {
  }
}
