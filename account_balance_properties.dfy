/** What the account-balance handler guarantees. */
module AccountBalanceProperties {
  import opened Wrappers
  import opened Text
  import opened UssdModels
  import opened AccountBalanceSteps
  import opened Navigation
  import opened AccountBalanceFlow

  /** At its menu and step the balance flow always answers in one round: the load error
      when the balance cannot be computed; an empty `CON` at the main menu for `#` and
      `##`; otherwise the summary, ending the session with the state unchanged. It never
      answers with the generic apology. */
  lemma BalanceStepOutcomes(svc: TransactionService, req: UssdRequest, st: UssdState)
    requires AtMenu(st, AccountBalance) && st.currentStep == StepBalanceDisplay
    ensures var r := HandleAsync(svc, req, st);
      && r.response != End(GenericError)
      && (svc.calculateBalance.None? ==> r == UssdHandlerResult(End(BalanceLoadError), st))
      && (svc.calculateBalance.Some? && (IsBlank(req.input) || PlainInput(req.input)) ==>
            r == UssdHandlerResult(End(BalanceScreen(svc.calculateBalance.value) + ThankYou), st))
      && (svc.calculateBalance.Some? && !IsBlank(req.input) && (Trim(req.input) == BackCommand || Trim(req.input) == MainMenuCommand) ==>
            r == UssdHandlerResult(Continue(""), st.(currentMenu := MenuText(MainMenu), currentStep := 0)))
  {
    var m := MenuText(MainMenu);
    var n := MenuText(AccountBalance);
    assert m != n by { assert m[1] != n[1]; }
    var e := "An error occurred. Please dial again to restart.";
    assert GenericError[1] == e[1];
    match svc.calculateBalance
    case None =>
    case Some(b) =>
      PreprocessingOutcomes(F, req.input, st, BalanceScreen(b));
      if !IsBlank(req.input) {
        NavigationEffect(F, req.input, st, StepBalanceDisplay);
      }
      assert (BalanceScreen(b) + ThankYou)[1] == BalanceDisplayPrompt[1];
  }
}
