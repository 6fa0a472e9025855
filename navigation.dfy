/** The navigation shared by every multi-step menu: step arithmetic, the `#` (back) and
    `##` (main menu) control tokens, navigation-option rendering, and the preprocessing
    every step runs before its own input handling. A `Flow` stands for the concrete
    handler whose hooks (menu, step count, prompts, clear hooks) the shared code calls. */
module Navigation {
  import opened Wrappers
  import opened Text
  import opened UssdModels
  import Add = AddTransactionSteps
  import History = TransactionHistorySteps
  import Balance = AccountBalanceSteps

  datatype Flow = AddTransactionFlow | TransactionHistoryFlow | AccountBalanceFlow

  const BackCommand: string := "#"
  const MainMenuCommand: string := "##"
  const FirstStep: int := 0

  /** The menu each concrete handler serves. */
  function MenuName(f: Flow): (m: UssdMenuName)
    ensures m != MainMenu
  {
    match f
    case AddTransactionFlow => AddTransaction
    case TransactionHistoryFlow => TransactionHistory
    case AccountBalanceFlow => AccountBalance
  }

  /** The length of each handler's step order. */
  function TotalSteps(f: Flow): (n: int)
    ensures n >= 1
  {
    match f
    case AddTransactionFlow => Add.TotalSteps
    case TransactionHistoryFlow => History.TotalSteps
    case AccountBalanceFlow => Balance.TotalSteps
  }

  /** The following step; the last step and out-of-range steps stay where they are. */
  function GetNextStep(f: Flow, step: int): (r: int)
    ensures 0 <= step < TotalSteps(f) - 1 ==> r == step + 1
    ensures !(0 <= step < TotalSteps(f) - 1) ==> r == step
  {
    if step >= 0 && step < TotalSteps(f) - 1 then step + 1 else step
  }

  /** The preceding step, never below the first one. */
  function GetPreviousStep(step: int): (r: int)
    ensures r >= FirstStep
    ensures step > FirstStep ==> r == step - 1
    ensures step <= FirstStep ==> r == FirstStep
  {
    if step > FirstStep then step - 1 else FirstStep
  }

  predicate IsFirstStep(step: int) { step == FirstStep }

  predicate IsLastStep(f: Flow, step: int) { step == TotalSteps(f) - 1 }

  /** Moving forward and then back returns to the same step, and so does moving back
      and then forward from any step after the first; both keep the step in range. */
  lemma NextAndPreviousAreInverse(f: Flow, step: int)
    requires 0 <= step < TotalSteps(f)
    ensures 0 <= GetNextStep(f, step) < TotalSteps(f)
    ensures 0 <= GetPreviousStep(step) < TotalSteps(f)
    ensures !IsLastStep(f, step) ==> GetPreviousStep(GetNextStep(f, step)) == step
    ensures !IsFirstStep(step) ==> GetNextStep(f, GetPreviousStep(step)) == step
    ensures IsLastStep(f, step) <==> GetNextStep(f, step) == step
  {
  }

  /** `w` occurs somewhere in `s`. */
  predicate Contains(s: string, w: string)
  {
    exists i :: 0 <= i <= |s| && w <= s[i..]
  }

  /** The option lines under a prompt: only "## Main Menu" at the first step, "# Back" and
      "## Main Menu" after it (OptionsMatchNavigation states what they promise). */
  function GetNavigationOptions(step: int): string
  {
    if step <= FirstStep then "\n\n" + MainMenuCommand + " Main Menu"
    else "\n\n" + BackCommand + " Back\n" + MainMenuCommand + " Main Menu"
  }

  /** The options a prompt shows agree with what the control tokens do: the main menu is
      always offered, and "# Back" is offered exactly at the steps where "#" keeps the
      session in its menu and moves it one step back. At the first step "#" leaves for
      the main menu, so no "Back" is shown there. */
  lemma OptionsMatchNavigation(f: Flow, st: UssdState, step: int)
    ensures var options := GetNavigationOptions(step);
      var last := MainMenuCommand + " Main Menu";
      && |options| > |last| && options[|options| - |last|..] == last && options[|options| - |last| - 1] == '\n'
      && (Contains(options, BackCommand + " Back") <==>
            var r := HandleNavigation(f, BackCommand, st, step);
            r.currentMenu == st.currentMenu && r.currentStep == step - 1)
  {
    var options := GetNavigationOptions(step);
    var back := BackCommand + " Back";
    assert Trim(BackCommand) == BackCommand;
    NavigationEffect(f, BackCommand, st, step);
    if step > FirstStep {
      assert back <= options[2..];
    } else {
      NoBackAtFirstStep(step);
      assert HandleNavigation(f, BackCommand, st, step).currentStep == 0;
    }
  }

  /** The first-step options contain no "B", so no "# Back". */
  lemma NoBackAtFirstStep(step: int)
    requires step <= FirstStep
    ensures !Contains(GetNavigationOptions(step), BackCommand + " Back")
  {
    var options := GetNavigationOptions(step);
    var back := BackCommand + " Back";
    assert forall j | 0 <= j < |options| :: options[j] != 'B';
    forall i | 0 <= i <= |options|
      ensures !(back <= options[i..])
    {
      if i + |back| <= |options| {
        assert options[i..][2] == options[i + 2];
      }
    }
  }

  /** The prompt of a step; any step outside the step order reads "Continue:". */
  function GetPromptForStep(f: Flow, step: int): (r: string)
    ensures !(0 <= step < TotalSteps(f)) ==> r == "Continue:"
  {
    if step < 0 || step >= TotalSteps(f) then "Continue:"
    else match f
      case AddTransactionFlow => Add.GetPromptForStepInternal(step)
      case TransactionHistoryFlow => History.GetPromptForStepInternal(step)
      case AccountBalanceFlow => Balance.GetPromptForStepInternal(step)
  }

  /** The handler's back-navigation hook (the balance handler keeps no data). */
  function ClearCurrentStepData(f: Flow, st: UssdState, step: int): (r: UssdState)
    ensures r == st.(ext := r.ext) && SameShape(r.ext, st.ext)
  {
    match f
    case AddTransactionFlow => Add.ClearCurrentStepData(st, step)
    case TransactionHistoryFlow => History.ClearCurrentStepData(st, step)
    case AccountBalanceFlow => st
  }

  /** The handler's clear-everything hook (the balance handler keeps no data). */
  function ClearTransactionData(f: Flow, st: UssdState): (r: UssdState)
    ensures r == st.(ext := r.ext) && SameShape(r.ext, st.ext)
  {
    match f
    case AddTransactionFlow => Add.ClearTransactionData(st)
    case TransactionHistoryFlow => History.ClearTransactionData(st)
    case AccountBalanceFlow => st
  }

  /** The state after recognising a control token in the trimmed input. */
  function HandleNavigation(f: Flow, input: string, st: UssdState, currentStep: int): (r: UssdState)
    ensures SameShape(r.ext, st.ext)
  {
    var token := Trim(input);
    if token == MainMenuCommand || (token == BackCommand && IsFirstStep(currentStep)) then
      ClearTransactionData(f, st.(currentMenu := MenuText(MainMenu), currentStep := 0))
    else if token == BackCommand then
      ClearCurrentStepData(f, st.(currentStep := GetPreviousStep(currentStep)), currentStep)
    else st
  }

  /** `##`, and `#` at the first step, return to the main menu at step 0 with the
      handler's data cleared; `#` after the first step goes back one step in the same
      menu, clearing only the data of the step being left; any other input changes
      nothing. */
  lemma NavigationEffect(f: Flow, input: string, st: UssdState, currentStep: int)
    ensures var r := HandleNavigation(f, input, st, currentStep);
      && (Trim(input) == MainMenuCommand || (Trim(input) == BackCommand && currentStep == FirstStep) ==>
            AtMenu(r, MainMenu) && r.currentStep == 0
            && r == ClearTransactionData(f, st.(currentMenu := MenuText(MainMenu), currentStep := 0)))
      && (Trim(input) == BackCommand && currentStep != FirstStep ==>
            r.currentMenu == st.currentMenu && r.currentStep == GetPreviousStep(currentStep)
            && r.ext == ClearCurrentStepData(f, st, currentStep).ext)
      && (Trim(input) != MainMenuCommand && Trim(input) != BackCommand ==> r == st)
  {
    var token := Trim(input);
    if token == BackCommand && currentStep != FirstStep {
      var moved := st.(currentStep := GetPreviousStep(currentStep));
      match f
      case AddTransactionFlow =>
        assert Add.ClearCurrentStepData(moved, currentStep).ext == Add.ClearCurrentStepData(st, currentStep).ext;
      case TransactionHistoryFlow =>
        assert History.ClearCurrentStepData(moved, currentStep).ext == History.ClearCurrentStepData(st, currentStep).ext;
      case AccountBalanceFlow =>
    }
  }

  /** What a step's preprocessing decides: answer now, or let the step handle the input
      against the (possibly navigated) state. */
  datatype Preprocessed = Respond(result: UssdHandlerResult) | Proceed(st: UssdState)

  /** Blank input re-shows the step's prompt; otherwise control tokens are applied, and a
      changed step shows that step's prompt, a changed menu answers an empty `CON`. */
  function HandleStepPreprocessing(f: Flow, input: string, st: UssdState, currentStep: int, prompt: string): (r: Preprocessed)
    ensures r.Proceed? ==> SameShape(r.st.ext, st.ext)
    ensures r.Respond? ==> SameShape(r.result.updatedState.ext, st.ext)
  {
    if IsBlank(input) then
      Respond(UssdHandlerResult(Continue(prompt + GetNavigationOptions(currentStep)), st))
    else
      var s := HandleNavigation(f, input, st, currentStep);
      if s.currentStep != currentStep then
        Respond(UssdHandlerResult(Continue(GetPromptForStep(f, s.currentStep) + GetNavigationOptions(s.currentStep)), s))
      else if s.currentMenu != MenuText(MenuName(f)) then
        Respond(UssdHandlerResult(Continue(""), s))
      else Proceed(s)
  }

  /** The four outcomes of preprocessing for a state at its own menu and step: blank input
      re-prompts with the state untouched; `#` after the first step re-prompts the
      previous step; `##` or `#` at the first step yields an empty `CON` at the main menu
      (or, past the first step, the first step's prompt at the main menu); any other input
      proceeds with the state untouched. */
  lemma PreprocessingOutcomes(f: Flow, input: string, st: UssdState, prompt: string)
    requires AtMenu(st, MenuName(f))
    ensures var r := HandleStepPreprocessing(f, input, st, st.currentStep, prompt);
      && (IsBlank(input) ==> r == Respond(UssdHandlerResult(Continue(prompt + GetNavigationOptions(st.currentStep)), st)))
      && (!IsBlank(input) && Trim(input) == BackCommand && st.currentStep > FirstStep ==>
            r.Respond? && r.result.response == Continue(GetPromptForStep(f, st.currentStep - 1) + GetNavigationOptions(st.currentStep - 1))
            && r.result.updatedState.currentStep == st.currentStep - 1 && AtMenu(r.result.updatedState, MenuName(f)))
      && (!IsBlank(input) && (Trim(input) == MainMenuCommand || Trim(input) == BackCommand) && st.currentStep == FirstStep ==>
            r.Respond? && r.result.response == Continue("") && AtMenu(r.result.updatedState, MainMenu))
      && (!IsBlank(input) && Trim(input) == MainMenuCommand && st.currentStep != FirstStep ==>
            r.Respond? && r.result.response.Continue? && AtMenu(r.result.updatedState, MainMenu)
            && r.result.updatedState.currentStep == 0)
      && (!IsBlank(input) && Trim(input) != MainMenuCommand && Trim(input) != BackCommand ==> r == Proceed(st))
  {
    var m := MenuText(MainMenu);
    var n := MenuText(MenuName(f));
    assert m != n by { assert m[1] != n[1]; }
    if !IsBlank(input) {
      NavigationEffect(f, input, st, st.currentStep);
      var token := Trim(input);
      if token == BackCommand && st.currentStep > FirstStep {
        assert HandleNavigation(f, input, st, st.currentStep).currentStep == st.currentStep - 1;
      } else if token == MainMenuCommand || token == BackCommand {
        assert HandleNavigation(f, input, st, st.currentStep).currentStep == 0;
      } else {
        assert HandleNavigation(f, input, st, st.currentStep) == st;
      }
    }
  }

  /** An input that is not a control token and not blank. */
  predicate PlainInput(input: string)
  {
    !IsBlank(input) && Trim(input) != BackCommand && Trim(input) != MainMenuCommand
  }

  /** Trimming plain input leaves it non-blank. */
  lemma TrimmedPlainInputNotBlank(input: string)
    requires PlainInput(input)
    ensures !IsBlank(Trim(input))
  {
    BlankIffTrimmedEmpty(input);
    TrimIdempotent(input);
    BlankIffTrimmedEmpty(Trim(input));
  }

  /** A number is neither blank nor a control token. */
  lemma NumberIsPlainInput(input: string, n: int)
    requires ParseInt(Trim(input)) == Some(n)
    ensures PlainInput(input)
  {
    BlankIffTrimmedEmpty(input);
  }
}
