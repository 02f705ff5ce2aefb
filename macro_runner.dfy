/** Running VBA code from the panes: the run button of the newer pane (which
    sanitizes the code and silences the application while the macro runs), the
    run button of the older pane, the runner of generated macros, and the
    prompts and result of the two-call repair chain. */
module MacroRunner {
  import opened Wrappers
  import opened Strings
  import opened Models
  import opened Host
  import opened ScriptText

  /** How a click on the run button ends. `RunFailed` carries the entry point
      and the exception text: the newer pane then offers a repair. */
  datatype MacroOutcome =
    | Skipped
    | NoEntryPoint
    | Ran(name: string)
    | RunFailed(name: string, message: string)

  /** The last call recorded is a run of `name` with the given flags while
      exactly one component, absent before, was added to `before`. */
  ghost predicate RanInTempModule(runs: seq<MacroCall>, oldRuns: seq<MacroCall>, name: string,
                            flags: AppFlags, before: set<string>)
  {
    |runs| == |oldRuns| + 1 && runs[..|oldRuns|] == oldRuns
    && runs[|oldRuns|].macro == name && runs[|oldRuns|].flags == flags
    && exists m :: m !in before && runs[|oldRuns|].components == before + {m}
  }

  /** The code the run button runs and leaves in the code box: blank code as
      it is, any other code sanitized. */
  function RunCode(code: string): (r: string)
    ensures !IsNullOrWhiteSpace(Some(code)) ==> Some(r) == SanitizeVbaCode(Some(code))
    ensures IsNullOrWhiteSpace(Some(code)) ==> r == code
  {
    if IsNullOrWhiteSpace(Some(code)) then code else SanitizeVbaCode(Some(code)).value
  }

  /** What running the code box gives: blank code is skipped; otherwise the
      code as run names its entry point with its first `Sub` declaration, and the
      run succeeds exactly when there is one, access to the VBA project is
      trusted and the macro raises no error. */
  predicate RunOutcome(code: string, host: MacroHost, outcome: MacroOutcome) {
    (outcome == Skipped <==> IsNullOrWhiteSpace(Some(code)))
    && (outcome == NoEntryPoint <==> !outcome.Skipped? && FirstSubName(RunCode(code)).None?)
    && (outcome.Ran? || outcome.RunFailed? ==>
          FirstSubName(RunCode(code)) == Some(outcome.name) && IsWordName(outcome.name))
    && (outcome.Ran? <==>
          !outcome.Skipped? && FirstSubName(RunCode(code)).Some? && host.accessTrusted && host.runError.None?)
    && (outcome.RunFailed? && !host.accessTrusted ==> outcome.message == UntrustedError)
    && (outcome.RunFailed? && host.accessTrusted ==> Some(outcome.message) == host.runError)
  }

  /** `BtnRunMacro_Click` of the newer pane. Blank code does nothing. The code is
      sanitized and the box shows the sanitized text. Without a `Sub <name>` the
      run stops before touching the application. Otherwise the three flags are
      switched off, a temporary module receives the code, the entry point runs,
      and on every path the module is removed and the flags are restored; a
      failure is reported with the entry point's name. When the VBA project is
      not trusted, the first access to it throws and nothing is added. */
  method RunMacro(app: Application, host: MacroHost, code: string)
    returns (outcome: MacroOutcome, shown: string)
    modifies app
    ensures app.flags == old(app.flags) && app.components == old(app.components)
    ensures shown == RunCode(code) && RunOutcome(code, host, outcome)
    ensures outcome.RunFailed? && !host.accessTrusted ==> app.runs == old(app.runs)
    ensures (outcome.Ran? || outcome.RunFailed?) && host.accessTrusted ==>
      RanInTempModule(app.runs, old(app.runs), outcome.name, Quiet, old(app.components))
    ensures outcome.Skipped? || outcome.NoEntryPoint? ==> app.runs == old(app.runs)
  {
    shown := code;
    if IsNullOrWhiteSpace(Some(code)) {
      return Skipped, shown;
    }
    shown := SanitizeVbaCode(Some(code)).value;
    var saved := app.flags;
    var found := FirstSubName(shown);
    if found.None? {
      return NoEntryPoint, shown;
    }
    var macroName := found.value;
    app.flags := Quiet;
    if !host.accessTrusted {
      app.flags := saved;
      return RunFailed(macroName, UntrustedError), shown;
    }
    ghost var before := app.components;
    var temp := app.AddModule();
    app.Run(macroName);
    app.RemoveModule(temp);
    app.flags := saved;
    if host.runError.Some? {
      outcome := RunFailed(macroName, host.runError.value);
    } else {
      outcome := Ran(macroName);
    }
  }

  /** `BtnRunMacro_Click` of the older pane: no sanitizing and no change to the
      application's flags; the temporary module is removed in `finally`, so it
      is gone whether the macro succeeds or throws. */
  method LegacyRunMacro(app: Application, host: MacroHost, code: string)
    returns (outcome: MacroOutcome)
    modifies app
    ensures app.flags == old(app.flags) && app.components == old(app.components)
    ensures outcome == Skipped <==> IsNullOrWhiteSpace(Some(code))
    ensures outcome == NoEntryPoint <==>
      !IsNullOrWhiteSpace(Some(code)) && FirstSubName(code).None?
    ensures outcome.Ran? || outcome.RunFailed? ==>
      !IsNullOrWhiteSpace(Some(code)) && FirstSubName(code) == Some(outcome.name)
    ensures outcome.Ran? <==>
      !IsNullOrWhiteSpace(Some(code)) && FirstSubName(code).Some? && host.accessTrusted
      && host.runError.None?
    ensures outcome.RunFailed? && !host.accessTrusted ==> outcome.message == UntrustedError
    ensures outcome.RunFailed? && host.accessTrusted ==> Some(outcome.message) == host.runError
    ensures (outcome.Ran? || outcome.RunFailed?) && host.accessTrusted ==>
      RanInTempModule(app.runs, old(app.runs), outcome.name, old(app.flags), old(app.components))
    ensures !((outcome.Ran? || outcome.RunFailed?) && host.accessTrusted) ==> app.runs == old(app.runs)
  {
    if IsNullOrWhiteSpace(Some(code)) {
      return Skipped;
    }
    var found := FirstSubName(code);
    if found.None? {
      return NoEntryPoint;
    }
    var macroName := found.value;
    if !host.accessTrusted {
      return RunFailed(macroName, UntrustedError);
    }
    var temp := app.AddModule();
    app.Run(macroName);
    app.RemoveModule(temp);
    if host.runError.Some? {
      outcome := RunFailed(macroName, host.runError.value);
    } else {
      outcome := Ran(macroName);
    }
  }

  /** The fixed name of the module that holds generated macros. */
  const TempRunner: string := "Sniper_Temp_Runner"

  /** The entry point every generated macro must declare. */
  const GeneratedEntry: string := "Sniper_Temp_Runner.AI_Generated_Action"

  /** `RunGeneratedMacro`: a module already named `Sniper_Temp_Runner` is removed,
      a new one of that name receives the code, and its `AI_Generated_Action`
      runs. The module is not removed afterwards, so exactly one such module
      remains; a failing run is only reported. Without trusted access nothing
      changes. The flags are not touched. */
  method RunGeneratedMacro(app: Application, host: MacroHost) returns (failure: Option<string>)
    modifies app
    ensures app.flags == old(app.flags)
    ensures !host.accessTrusted ==>
      failure == Some(UntrustedError) && app.components == old(app.components) && app.runs == old(app.runs)
    ensures host.accessTrusted ==>
      app.components == old(app.components) + {TempRunner} && failure == host.runError
      && app.runs == old(app.runs) + [MacroCall(GeneratedEntry, old(app.flags), old(app.components) + {TempRunner})]
  {
    if !host.accessTrusted {
      return Some(UntrustedError);
    }
    if TempRunner in app.components {
      app.RemoveModule(TempRunner);
    }
    var temp := app.AddModule();
    app.RemoveModule(temp);
    app.components := app.components + {TempRunner};
    app.Run(GeneratedEntry);
    failure := host.runError;
  }

  /** Two generated runs in a row leave the same single runner module as one. */
  lemma GeneratedRunnerSingle(before: set<string>)
    ensures (before + {TempRunner}) + {TempRunner} == before + {TempRunner}
  {
  }

  // ---------------------------------------------------------------------------
  // Repair chain
  // ---------------------------------------------------------------------------

  /** The first repair call: what was the code meant to do. */
  function IntentPrompt(code: string): string {
    IntentIntro + code + IntentOutro
  }

  const IntentIntro: string := "You are an expert VBA developer. Analyze the following VBA code and briefly explain what the user was trying to achieve. \n\nCode:\n"
  const IntentOutro: string := "\n\nOutput the intent in one or two sentences."

  /** The second repair call: the intent reply, the error, the workbook context
      and the code, with the instruction to return only fixed code. */
  function FixPrompt(intent: string, errorLog: string, context: string, code: string): string {
    FixIntro + intent + FixErrorLabel + errorLog + FixContextLabel + context + FixCodeLabel + code
    + FixInstructions
  }

  const FixIntro: string := "You are an expert VBA developer. \nThe user's original intent was: "
  const FixErrorLabel: string := "\nThe code failed with error: "
  const FixContextLabel: string := "\nCurrent Workbook Context: "
  const FixCodeLabel: string := "\n\nOriginal Code:\n"
  const FixInstructions: string := "\n\nPlease fix the code to achieve the intent and resolve the error. \n"
    + "Ensure sheet names and range references match the provided context if applicable. \n"
    + "Return ONLY the fixed VBA code block (no markdown, no explanations)."

  /** The first call carries the code; the second carries the first call's reply,
      the error text and the code, so the fix is asked for with the intent in
      hand. */
  lemma RepairPromptsCarryInputs(intent: string, errorLog: string, context: string, code: string)
    ensures Contains(IntentPrompt(code), code)
    ensures Contains(FixPrompt(intent, errorLog, context, code), intent)
    ensures Contains(FixPrompt(intent, errorLog, context, code), errorLog)
    ensures Contains(FixPrompt(intent, errorLog, context, code), code)
  {
    assert Contains(intent, intent) by { assert intent <= intent; }
    assert Contains(errorLog, errorLog) by { assert errorLog <= errorLog; }
    assert Contains(code, code) by { assert code <= code; }
    ContainsRight(IntentIntro, code, code);
    ContainsLeft(IntentIntro + code, IntentOutro, code);
    var p1 := FixIntro + intent;
    var p2 := p1 + FixErrorLabel;
    var p3 := p2 + errorLog;
    var p4 := p3 + FixContextLabel;
    var p5 := p4 + context;
    var p6 := p5 + FixCodeLabel;
    var p7 := p6 + code;
    ContainsRight(FixIntro, intent, intent);
    ContainsLeft(p1, FixErrorLabel, intent);
    ContainsLeft(p2, errorLog, intent);
    ContainsRight(p2, errorLog, errorLog);
    ContainsLeft(p3, FixContextLabel, intent);
    ContainsLeft(p3, FixContextLabel, errorLog);
    ContainsLeft(p4, context, intent);
    ContainsLeft(p4, context, errorLog);
    ContainsLeft(p5, FixCodeLabel, intent);
    ContainsLeft(p5, FixCodeLabel, errorLog);
    ContainsLeft(p6, code, intent);
    ContainsLeft(p6, code, errorLog);
    ContainsRight(p6, code, code);
    ContainsLeft(p7, FixInstructions, intent);
    ContainsLeft(p7, FixInstructions, errorLog);
    ContainsLeft(p7, FixInstructions, code);
  }

  /** The preset the repair chain saves: titled `<name>_repair`, holding the fixed
      code with its fences removed and every `Sub <name>` renamed. */
  function RepairedPreset(fixReply: string, name: string): (p: MacroPreset)
    requires IsWordName(name)
    ensures p.Title == name + RepairSuffix
  {
    MacroPreset(name + RepairSuffix,
      RenameSubs(CleanLLMOutput(fixReply), name, name + RepairSuffix))
  }

  /** A fix reply that declares the failed entry point first and nowhere else
      yields a preset that runs as `<name>_repair`. */
  lemma RepairedPresetRuns(name: string, rest: string)
    requires IsWordName(name) && NoRenameMatch(rest, name)
    requires rest == [] || !IsWordChar(rest[0])
    requires CleanLLMOutput("Sub " + name + rest) == "Sub " + name + rest
    ensures FirstSubName(RepairedPreset("Sub " + name + rest, name).Code)
            == Some(name + RepairSuffix)
  {
    RepairedEntryPoint(name, rest);
  }
}
