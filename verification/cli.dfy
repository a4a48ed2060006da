/** The body of the command-line action (src/cli.ts): generate, validate, then
    deliver at once or run the accept/regenerate/cancel loop.

    The remote generator and the validator live outside this model: the generator
    is an oracle giving the outcome of its i-th call, the validator an arbitrary
    predicate. The user's answers at the prompt are a finite sequence of choice
    values; a run that has used them all and is still at the prompt is waiting. */
module Cli {
  import opened Wrappers
  import opened Strings
  import opened Shell

  /** The positional words and the options of one invocation. */
  datatype Invocation = Invocation(words: seq<string>, shell: ShellType, model: string, yes: bool)

  /** The argument of one call of the generator. */
  datatype Request = Request(query: string, shell: ShellType, model: string)

  /** The request every generation call of an invocation makes. */
  function RequestFor(inv: Invocation): Request {
    Request(Join(inv.words, " "), inv.shell, inv.model)
  }

  /** The outcome of one generator call: a command, or the value it throws. */
  datatype Generation = Generated(command: string) | GenerationThrew(thrown: Thrown)

  /** The generator: the outcome of its i-th call, counting from 0. */
  type Generator = nat -> Generation

  /** The command validator. */
  type Validator = string -> bool

  const ValidationMessage: string :=
    "Generated command failed validation. Please try rephrasing your query."
  const AcceptChoice: string := "accept"
  const RegenerateChoice: string := "regenerate"

  /** Where the run is: showing a command and waiting for a choice, or finished. */
  datatype Phase = Presenting(command: string) | Delivered(command: string) | Cancelled | Failed(thrown: Thrown)

  /** The state of a run: its phase, the generator calls made, the commands shown
      at the prompt, the regenerated commands that failed validation (warned about),
      and the commands handed to `copyToClipboardOrHistory`. */
  datatype Session = Session(phase: Phase, requests: seq<Request>, prompts: seq<string>,
                             warnings: seq<string>, deliveries: seq<string>)

  /** The run up to the first prompt: the first generation, its validation, and the
      `--yes` shortcut. */
  function Start(inv: Invocation, gen: Generator, valid: Validator): (s: Session)
    ensures s.requests == [RequestFor(inv)] && s.prompts == [] && s.warnings == []
    ensures s.phase.Failed? <==> gen(0).GenerationThrew? || !valid(gen(0).command)
    ensures s.phase.Delivered? <==> gen(0).Generated? && valid(gen(0).command) && inv.yes
    ensures s.phase.Presenting? <==> gen(0).Generated? && valid(gen(0).command) && !inv.yes
    ensures s.deliveries == (if s.phase.Delivered? then [gen(0).command] else [])
  {
    var requests := [RequestFor(inv)];
    match gen(0)
    case GenerationThrew(t) => Session(Failed(t), requests, [], [], [])
    case Generated(c) =>
      if !valid(c) then Session(Failed(Error(ValidationMessage)), requests, [], [], [])
      else if inv.yes then Session(Delivered(c), requests, [], [], [c])
      else Session(Presenting(c), requests, [], [], [])
  }

  /** One pass of the confirmation loop: show the command, then act on the choice. */
  function Step(inv: Invocation, gen: Generator, valid: Validator, s: Session, action: string): (r: Session)
    requires s.phase.Presenting?
    ensures r.prompts == s.prompts + [s.phase.command]
    ensures action == AcceptChoice ==>
      r.phase == Delivered(s.phase.command) && r.deliveries == s.deliveries + [s.phase.command] &&
      r.requests == s.requests && r.warnings == s.warnings
    ensures action == RegenerateChoice ==>
      r.requests == s.requests + [RequestFor(inv)] && r.deliveries == s.deliveries &&
      (r.phase.Presenting? <==> gen(|s.requests|).Generated?) &&
      (r.phase.Presenting? ==> r.phase.command == gen(|s.requests|).command)
    ensures action == RegenerateChoice && gen(|s.requests|).GenerationThrew? ==>
      r.phase == Failed(gen(|s.requests|).thrown) && r.warnings == s.warnings
    ensures action == RegenerateChoice && gen(|s.requests|).Generated? ==>
      r.warnings == s.warnings + (if valid(gen(|s.requests|).command) then [] else [gen(|s.requests|).command])
    ensures action != AcceptChoice && action != RegenerateChoice ==>
      r.phase == Cancelled && r.requests == s.requests && r.deliveries == s.deliveries &&
      r.warnings == s.warnings
  {
    var c := s.phase.command;
    var shown := s.(prompts := s.prompts + [c]);
    if action == AcceptChoice then
      shown.(phase := Delivered(c), deliveries := s.deliveries + [c])
    else if action == RegenerateChoice then
      var asked := shown.(requests := s.requests + [RequestFor(inv)]);
      match gen(|s.requests|)
      case GenerationThrew(t) => asked.(phase := Failed(t))
      case Generated(next) =>
        asked.(phase := Presenting(next), warnings := if valid(next) then s.warnings else s.warnings + [next])
    else
      shown.(phase := Cancelled)
  }

  /** The loop run over the user's choices until it finishes or the choices run out. */
  function Steps(inv: Invocation, gen: Generator, valid: Validator, s: Session, choices: seq<string>): (r: Session)
    ensures !s.phase.Presenting? ==> r == s
    ensures s.requests <= r.requests && s.prompts <= r.prompts
    ensures |r.prompts| <= |s.prompts| + |choices|
    decreases |choices|
  {
    if choices == [] || !s.phase.Presenting? then s
    else Steps(inv, gen, valid, Step(inv, gen, valid, s, choices[0]), choices[1..])
  }

  /** A whole run of the action. */
  function Run(inv: Invocation, gen: Generator, valid: Validator, choices: seq<string>): (r: Session)
    ensures |r.requests| >= 1 && r.requests[0] == RequestFor(inv)
    ensures |r.prompts| <= |choices|
    ensures inv.yes ==> r.prompts == []
  {
    Steps(inv, gen, valid, Start(inv, gen, valid), choices)
  }

  /** The exit status of a finished run; none while the run waits at the prompt. */
  function ExitCode(s: Session): (r: Option<int>)
    ensures r == None <==> s.phase.Presenting?
    ensures s.phase.Failed? <==> r == Some(1)
    ensures s.phase.Delivered? || s.phase.Cancelled? ==> r == Some(0)
  {
    match s.phase
    case Presenting(_) => None
    case Failed(_) => Some(1)
    case _ => Some(0)
  }

  /** The remediation tip printed after an error. */
  datatype Hint = ApiKeyHint | ModelHint | NoHint

  /** The tip for a caught error: the API-key tip wins over the model tip, and the
      model tip needs "model" without "API key". */
  function HintFor(t: Thrown): (h: Hint)
    ensures h == ApiKeyHint <==> t.Error? && Includes(t.message, "API key")
    ensures h == ModelHint <==> t.Error? && !Includes(t.message, "API key") && Includes(t.message, "model")
    ensures h == NoHint <==> t.NonError? || (!Includes(t.message, "API key") && !Includes(t.message, "model"))
  {
    if t.Error? && Includes(t.message, "API key") then ApiKeyHint
    else if t.Error? && Includes(t.message, "model") then ModelHint
    else NoHint
  }

  /** What every reachable session satisfies: all generator calls carry the same
      request, the command shown or delivered is the latest one generated, at most
      that one command is delivered, and a failure is what the latest generator call
      threw or the first command's validation error. */
  ghost predicate Consistent(inv: Invocation, gen: Generator, s: Session) {
    && |s.requests| >= 1
    && (forall r :: r in s.requests ==> r == RequestFor(inv))
    && match s.phase
       case Presenting(c) => gen(|s.requests| - 1) == Generated(c) && s.deliveries == []
       case Delivered(c) => gen(|s.requests| - 1) == Generated(c) && s.deliveries == [c]
       case Failed(t) =>
         && s.deliveries == []
         && (gen(|s.requests| - 1) == GenerationThrew(t) ||
             (|s.requests| == 1 && t == Error(ValidationMessage)))
       case Cancelled => s.deliveries == []
  }

  lemma StartConsistent(inv: Invocation, gen: Generator, valid: Validator)
    ensures Consistent(inv, gen, Start(inv, gen, valid))
  {
  }

  lemma {:induction false} StepsConsistent(inv: Invocation, gen: Generator, valid: Validator,
                                           s: Session, choices: seq<string>)
    requires Consistent(inv, gen, s)
    ensures Consistent(inv, gen, Steps(inv, gen, valid, s, choices))
    decreases |choices|
  {
    if choices != [] && s.phase.Presenting? {
      var t := Step(inv, gen, valid, s, choices[0]);
      assert Consistent(inv, gen, t);
      StepsConsistent(inv, gen, valid, t, choices[1..]);
    }
  }

  /** In every run, each generator call gets the words joined by single spaces, at most
      one command is delivered, and a delivered command is the latest one generated,
      whether or not it passed validation. */
  lemma DeliversLatestCommand(inv: Invocation, gen: Generator, valid: Validator, choices: seq<string>)
    ensures var s := Run(inv, gen, valid, choices);
            && (forall r :: r in s.requests ==> r == Request(Join(inv.words, " "), inv.shell, inv.model))
            && |s.requests| >= 1
            && (s.phase.Delivered? ==> s.deliveries == [s.phase.command] &&
                                       gen(|s.requests| - 1) == Generated(s.phase.command))
            && (!s.phase.Delivered? ==> s.deliveries == [])
  {
    StartConsistent(inv, gen, valid);
    StepsConsistent(inv, gen, valid, Start(inv, gen, valid), choices);
  }

  /** Every run that fails ends on a caught error and exits 1: either a generator call
      threw (the first or any regeneration) and the run carries what it threw, or the
      first command failed validation. */
  lemma FailuresAreCaughtErrors(inv: Invocation, gen: Generator, valid: Validator, choices: seq<string>)
    ensures var s := Run(inv, gen, valid, choices);
            s.phase.Failed? ==>
              && ExitCode(s) == Some(1)
              && |s.requests| >= 1
              && (gen(|s.requests| - 1) == GenerationThrew(s.phase.thrown) ||
                  (|s.requests| == 1 && gen(0).Generated? && !valid(gen(0).command) &&
                   s.phase.thrown == Error(ValidationMessage)))
  {
    StartConsistent(inv, gen, valid);
    StepsConsistent(inv, gen, valid, Start(inv, gen, valid), choices);
  }

  /** A regeneration that throws ends the run at once with that error and status 1,
      whatever the later answers. */
  lemma RegenerateThrowsFails(inv: Invocation, gen: Generator, valid: Validator, s: Session, rest: seq<string>)
    requires s.phase.Presenting? && gen(|s.requests|).GenerationThrew?
    ensures var t := Steps(inv, gen, valid, s, [RegenerateChoice] + rest);
            && t.phase == Failed(gen(|s.requests|).thrown)
            && t.requests == s.requests + [RequestFor(inv)]
            && t.deliveries == s.deliveries
            && ExitCode(t) == Some(1)
  {
    assert ([RegenerateChoice] + rest)[0] == RegenerateChoice;
    assert ([RegenerateChoice] + rest)[1..] == rest;
  }

  /** A first command that fails validation ends the run with status 1, before any
      prompt or delivery. */
  lemma FirstInvalidStops(inv: Invocation, gen: Generator, valid: Validator, choices: seq<string>)
    requires gen(0).Generated? && !valid(gen(0).command)
    ensures Run(inv, gen, valid, choices) ==
            Session(Failed(Error(ValidationMessage)), [RequestFor(inv)], [], [], [])
    ensures ExitCode(Run(inv, gen, valid, choices)) == Some(1)
  {
  }

  /** A first generation that throws ends the run with status 1 and that error. */
  lemma FirstGenerationThrows(inv: Invocation, gen: Generator, valid: Validator, choices: seq<string>)
    requires gen(0).GenerationThrew?
    ensures Run(inv, gen, valid, choices) == Session(Failed(gen(0).thrown), [RequestFor(inv)], [], [], [])
    ensures ExitCode(Run(inv, gen, valid, choices)) == Some(1)
  {
  }

  /** With `--yes` and a valid first command: one generation, one delivery of that
      command, no prompt, status 0, whatever the user would have answered. */
  lemma YesDeliversAtOnce(inv: Invocation, gen: Generator, valid: Validator, choices: seq<string>)
    requires inv.yes && gen(0).Generated? && valid(gen(0).command)
    ensures Run(inv, gen, valid, choices) ==
            Session(Delivered(gen(0).command), [RequestFor(inv)], [], [], [gen(0).command])
    ensures ExitCode(Run(inv, gen, valid, choices)) == Some(0)
  {
  }

  /** `k` copies of the same choice. */
  function Repeat(choice: string, k: nat): (r: seq<string>)
    ensures |r| == k && forall i :: 0 <= i < k ==> r[i] == choice
  {
    seq(k, _ => choice)
  }

  lemma {:induction false} RegeneratesThenAcceptFrom(inv: Invocation, gen: Generator, valid: Validator,
                                                     s: Session, k: nat, rest: seq<string>)
    requires s.phase.Presenting?
    requires forall i :: |s.requests| <= i < |s.requests| + k ==> gen(i).Generated?
    ensures var t := Steps(inv, gen, valid, s, Repeat(RegenerateChoice, k) + [AcceptChoice] + rest);
            && t.phase.Delivered?
            && |t.requests| == |s.requests| + k
            && |t.prompts| == |s.prompts| + k + 1
            && t.deliveries == s.deliveries + [if k == 0 then s.phase.command
                                               else gen(|s.requests| + k - 1).command]
    decreases k
  {
    var choices := Repeat(RegenerateChoice, k) + [AcceptChoice] + rest;
    if k == 0 {
      assert choices[0] == AcceptChoice;
    } else {
      assert choices[0] == RegenerateChoice;
      assert choices[1..] == Repeat(RegenerateChoice, k - 1) + [AcceptChoice] + rest;
      var t := Step(inv, gen, valid, s, RegenerateChoice);
      assert gen(|s.requests|).Generated?;
      RegeneratesThenAcceptFrom(inv, gen, valid, t, k - 1, rest);
    }
  }

  /** `k` regenerations followed by accept: `k + 1` generations, `k + 1` prompts and
      exactly one delivery, of the last command generated, with status 0. */
  lemma RegeneratesThenAccept(inv: Invocation, gen: Generator, valid: Validator, k: nat, rest: seq<string>)
    requires !inv.yes && gen(0).Generated? && valid(gen(0).command)
    requires forall i :: 1 <= i <= k ==> gen(i).Generated?
    ensures var t := Run(inv, gen, valid, Repeat(RegenerateChoice, k) + [AcceptChoice] + rest);
            && |t.requests| == k + 1
            && |t.prompts| == k + 1
            && t.deliveries == [gen(k).command]
            && ExitCode(t) == Some(0)
  {
    RegeneratesThenAcceptFrom(inv, gen, valid, Start(inv, gen, valid), k, rest);
  }

  /** Regenerating twice and then accepting calls the generator three times and
      delivers once. */
  lemma TwoRegenerationsThenAccept(inv: Invocation, gen: Generator, valid: Validator)
    requires !inv.yes && gen(0).Generated? && valid(gen(0).command)
    requires gen(1).Generated? && gen(2).Generated?
    ensures var t := Run(inv, gen, valid, [RegenerateChoice, RegenerateChoice, AcceptChoice]);
            |t.requests| == 3 && t.deliveries == [gen(2).command]
  {
    assert [RegenerateChoice, RegenerateChoice, AcceptChoice] == Repeat(RegenerateChoice, 2) + [AcceptChoice] + [];
    RegeneratesThenAccept(inv, gen, valid, 2, []);
  }

  /** Any choice other than accept or regenerate ends the loop with no delivery and status 0. */
  lemma OtherChoiceCancels(inv: Invocation, gen: Generator, valid: Validator, s: Session,
                           action: string, rest: seq<string>)
    requires s.phase.Presenting? && action != AcceptChoice && action != RegenerateChoice
    ensures Steps(inv, gen, valid, s, [action] + rest) ==
            s.(phase := Cancelled, prompts := s.prompts + [s.phase.command])
    ensures ExitCode(Steps(inv, gen, valid, s, [action] + rest)) == Some(0)
  {
    assert ([action] + rest)[0] == action;
  }

  /** Each pass of the loop shows the command once, and either finishes the run or
      makes exactly one more generator call; only regenerate makes a call. */
  lemma StepProgress(inv: Invocation, gen: Generator, valid: Validator, s: Session, action: string)
    requires s.phase.Presenting?
    ensures var t := Step(inv, gen, valid, s, action);
            && t.prompts == s.prompts + [s.phase.command]
            && (!t.phase.Presenting? <==> action != RegenerateChoice || gen(|s.requests|).GenerationThrew?)
            && (t.phase.Presenting? ==> |t.requests| == |s.requests| + 1)
            && (|t.requests| == |s.requests| + 1 <==> action == RegenerateChoice)
            && (action != RegenerateChoice ==> t.requests == s.requests)
  {
  }

  lemma {:induction false} StepsBounds(inv: Invocation, gen: Generator, valid: Validator,
                                       s: Session, choices: seq<string>)
    ensures var t := Steps(inv, gen, valid, s, choices);
            && |t.requests| - |s.requests| <= |t.prompts| - |s.prompts| <= |choices|
            && (s.phase.Presenting? && t.phase.Presenting? ==>
                  |t.prompts| == |s.prompts| + |choices| &&
                  forall i :: 0 <= i < |choices| ==> choices[i] == RegenerateChoice)
    decreases |choices|
  {
    if choices != [] && s.phase.Presenting? {
      var t := Step(inv, gen, valid, s, choices[0]);
      StepsBounds(inv, gen, valid, t, choices[1..]);
      if t.phase.Presenting? {
        assert choices[0] == RegenerateChoice;
      }
    }
  }

  /** The generator is called at most once per choice plus once at the start; the
      prompt is shown at most once per choice and never with `--yes`; a run still
      waiting at the prompt has used every choice, all of them regenerate. */
  lemma RunBounds(inv: Invocation, gen: Generator, valid: Validator, choices: seq<string>)
    ensures var t := Run(inv, gen, valid, choices);
            && |t.requests| <= |t.prompts| + 1 <= |choices| + 1
            && (inv.yes ==> t.prompts == [])
            && (t.phase.Presenting? ==>
                  |t.prompts| == |choices| && forall i :: 0 <= i < |choices| ==> choices[i] == RegenerateChoice)
  {
    StepsBounds(inv, gen, valid, Start(inv, gen, valid), choices);
  }

  /** The `.action` body of the program. */
  method Action(inv: Invocation, gen: Generator, valid: Validator, choices: seq<string>) returns (s: Session)
    ensures s == Run(inv, gen, valid, choices)
  {
    var queryText := Join(inv.words, " ");
    var request := Request(queryText, inv.shell, inv.model);
    var requests := [request];
    var first := gen(0);
    if first.GenerationThrew? {
      return Session(Failed(first.thrown), requests, [], [], []);
    }
    var command := first.command;
    if !valid(command) {
      return Session(Failed(Error(ValidationMessage)), requests, [], [], []);
    }
    if inv.yes {
      return Session(Delivered(command), requests, [], [], [command]);
    }
    var prompts: seq<string> := [];
    var warnings: seq<string> := [];
    var i := 0;
    while true
      invariant 0 <= i <= |choices|
      invariant Steps(inv, gen, valid, Session(Presenting(command), requests, prompts, warnings, []), choices[i..])
                == Run(inv, gen, valid, choices)
      decreases |choices| - i
    {
      if i == |choices| {
        return Session(Presenting(command), requests, prompts, warnings, []);
      }
      var action := choices[i];
      i := i + 1;
      prompts := prompts + [command];
      if action == AcceptChoice {
        return Session(Delivered(command), requests, prompts, warnings, [command]);
      } else if action == RegenerateChoice {
        var next := gen(|requests|);
        requests := requests + [request];
        if next.GenerationThrew? {
          return Session(Failed(next.thrown), requests, prompts, warnings, []);
        }
        command := next.command;
        if !valid(command) {
          warnings := warnings + [command];
        }
      } else {
        return Session(Cancelled, requests, prompts, warnings, []);
      }
    }
  }
}
