/** The account-balance handler: a single step that loads the balance and ends the session
    with its summary. It keeps no data of its own in the state. */
module AccountBalanceFlow {
  import opened Wrappers
  import opened Text
  import opened UssdModels
  import opened AccountBalanceSteps
  import opened Navigation

  const F: Flow := AccountBalanceFlow

  /** The summary screen of a balance. */
  function BalanceScreen(b: BalanceResult): string
  {
    BalanceDisplayPrompt + "\n" + FormatBalanceDisplay(b)
  }

  /** Ends the flow with the summary, at step 0 (the clear hook has nothing to clear). */
  function CompleteAccountBalance(st: UssdState, b: BalanceResult): (r: UssdHandlerResult)
    ensures r.response.End? && r.updatedState == st.(currentStep := 0)
  {
    UssdHandlerResult(End(BalanceScreen(b) + ThankYou), Navigation.ClearTransactionData(F, st).(currentStep := 0))
  }

  /** After the step's input is accepted: the single step is the last one, so the flow
      completes. */
  function ProcessStepCompletion(currentStep: int, st: UssdState, b: BalanceResult): (r: UssdHandlerResult)
  {
    if IsLastStep(F, currentStep) then CompleteAccountBalance(st, b)
    else
      var next := GetNextStep(F, currentStep);
      var s := st.(currentStep := next);
      if IsLastStep(F, next) then CompleteAccountBalance(s, b)
      else UssdHandlerResult(Continue(GetPromptForStep(F, next) + GetNavigationOptions(next)), s)
  }

  /** Step 0: the balance is loaded first (a failure is answered with the load error);
      blank input completes, other input is preprocessed against the summary and
      otherwise completes. */
  function HandleBalanceDisplayStep(svc: TransactionService, input: string, st: UssdState): (r: UssdHandlerResult)
  {
    match svc.calculateBalance
    case None => UssdHandlerResult(End(BalanceLoadError), st)
    case Some(b) =>
      if IsBlank(input) then ProcessStepCompletion(StepBalanceDisplay, st, b)
      else
        match HandleStepPreprocessing(F, input, st, StepBalanceDisplay, BalanceScreen(b))
        case Respond(res) => res
        case Proceed(s) => ProcessStepCompletion(StepBalanceDisplay, s, b)
  }

  /** The handler entry point: an empty `CON` at the main menu, the balance step at step 0,
      and the generic apology at any other step. Nothing in it can throw: the balance
      load catches its own failure. */
  function HandleAsync(svc: TransactionService, req: UssdRequest, st: UssdState): (r: UssdHandlerResult)
  {
    if AtMenu(st, MainMenu) then UssdHandlerResult(Continue(""), st)
    else if st.currentStep == StepBalanceDisplay then HandleBalanceDisplayStep(svc, req.input, st)
    else UssdHandlerResult(End(GenericError), st)
  }
}
