/** The add-transaction handler as functions from (service, input, state) to the
    response and the state object to persist: type, paginated category picker, amount,
    description, and creation of the record once the description is in. */
module AddTransactionFlow {
  import opened Wrappers
  import opened Text
  import opened UssdModels
  import opened AddTransactionSteps
  import opened Navigation

  const F: Flow := AddTransactionFlow

  function WithAdd(st: UssdState, a: AddTransactionData): UssdState
  {
    st.(ext := AddTransactionFields(a))
  }

  /** The state as an `AddTransactionState`: unchanged when it already is one, otherwise
      a fresh copy of the base fields with empty entries. */
  function EnsureAddTransactionState(st: UssdState): (r: UssdState)
    ensures r.ext.AddTransactionFields? && r == st.(ext := r.ext)
    ensures st.ext.AddTransactionFields? ==> r == st
    ensures !st.ext.AddTransactionFields? ==> r.ext.add == EmptyAddTransactionData
  {
    if st.ext.AddTransactionFields? then st else WithAdd(st, EmptyAddTransactionData)
  }

  /** The option line under the category picker: only "# Back", and nothing at step 0. */
  function GetNavigationOptionsForCategory(step: int): string
  {
    if step <= FirstStep then "" else "\n\n" + BackCommand + " Back"
  }

  function ReturnError(st: UssdState, step: int, message: string): UssdHandlerResult
  {
    UssdHandlerResult(Continue(message + GetNavigationOptions(step)), st)
  }

  /** The creation request from the collected entries; `None` when the service throws, or
      when no amount was collected (reading the missing amount throws). */
  function CreateTransaction(svc: TransactionService, st: UssdState): (r: Option<Transaction>)
    requires st.ext.AddTransactionFields?
    ensures st.ext.add.transactionAmount.None? ==> r.None?
  {
    var a := st.ext.add;
    if a.transactionAmount.None? then None
    else svc.createTransaction(NewTransaction(a.transactionType, a.transactionCategory,
                                              a.transactionAmount.value, a.transactionDescription.GetOr("")))
  }

  /** Ends the flow: the record (created now if none was passed in) is summarised, the
      entries are cleared and the step rewinds to 0; without a record the creation-failed
      message ends the session and the state is left as it is. */
  function CompleteAddTransaction(svc: TransactionService, st: UssdState, created: Option<Transaction>): (r: UssdHandlerResult)
    requires st.ext.AddTransactionFields?
  {
    var t := if created.None? then CreateTransaction(svc, st) else created;
    if t.None? then UssdHandlerResult(End(TransactionCreationFailed), st)
    else
      UssdHandlerResult(
        End("Transaction created successfully!\n\n" + FormatTransactionConfirmation(t.value) + ThankYou),
        AddTransactionSteps.ClearTransactionData(st).(currentStep := 0))
  }

  /** After a step's input is accepted: the last step completes; otherwise the flow moves
      on, completing at once when the new step is the last one, else prompting it. */
  function ProcessStepCompletion(svc: TransactionService, currentStep: int, st: UssdState, created: Option<Transaction>): (r: UssdHandlerResult)
    requires st.ext.AddTransactionFields?
  {
    if IsLastStep(F, currentStep) then CompleteAddTransaction(svc, st, created)
    else
      var next := GetNextStep(F, currentStep);
      var s := st.(currentStep := next);
      if IsLastStep(F, next) then
        CompleteAddTransaction(svc, s, if created.None? then CreateTransaction(svc, s) else created)
      else UssdHandlerResult(Continue(GetPromptForStep(F, next) + GetNavigationOptions(next)), s)
  }

  /** Step 0: "1" records Income, "2" records Expense. */
  function HandleTransactionType(svc: TransactionService, input: string, st: UssdState): (r: UssdHandlerResult)
    requires st.ext.AddTransactionFields?
  {
    match HandleStepPreprocessing(F, input, st, StepTransactionType, TransactionTypePrompt)
    case Respond(res) => res
    case Proceed(s) =>
      var token := Trim(input);
      if token == "1" then
        ProcessStepCompletion(svc, StepTransactionType, WithAdd(s, s.ext.add.(transactionType := Some("Income"))), None)
      else if token == "2" then
        ProcessStepCompletion(svc, StepTransactionType, WithAdd(s, s.ext.add.(transactionType := Some("Expense"))), None)
      else ReturnError(s, StepTransactionType, InvalidTransactionType)
  }

  /** The picker at the state's page; a negative page throws. */
  function ShowCategoryPage(st: UssdState, step: int): (r: Outcome)
    requires st.ext.AddTransactionFields?
    ensures r.Raised? <==> st.ext.add.categoryPage < 0
    ensures r.Raised? ==> r.at == st
    ensures r.Done? ==> r.result.updatedState == st && r.result.response.Continue?
  {
    match GetCategoryPrompt(st.ext.add.categoryPage)
    case None => Raised(st)
    case Some(prompt) => Done(UssdHandlerResult(Continue(prompt + GetNavigationOptionsForCategory(step)), st))
  }

  /** A control token left the category step: the picker rewinds, then the new step's
      prompt, or an empty `CON` when the menu changed. */
  function HandleCategoryNavigationChange(st: UssdState, step: int): (r: Outcome)
    requires st.ext.AddTransactionFields?
  {
    var s := WithAdd(st, st.ext.add.(categoryPage := 0));
    if s.currentStep != step then
      Done(UssdHandlerResult(Continue(GetPromptForStep(F, s.currentStep) + GetNavigationOptions(s.currentStep)), s))
    else if s.currentMenu != MenuText(MenuName(F)) then Done(UssdHandlerResult(Continue(""), s))
    else ShowCategoryPage(s, step)
  }

  /** The picker page after a paging command: "*" moves forward and "**" back, each only
      while a page exists in that direction; `None` for any other input. */
  function PagedCategoryPage(token: string, page: int): (r: Option<int>)
    ensures r.Some? <==> token == NextPageCommand || token == PreviousPageCommand
  {
    var totalPages := GetTotalPages();
    if token == NextPageCommand then Some(if page < totalPages - 1 then page + 1 else page)
    else if token == PreviousPageCommand then Some(if page > 0 then page - 1 else page)
    else None
  }

  /** Paging commands re-show the picker at the new page; `None` for other input. */
  function HandleCategoryPagination(token: string, st: UssdState, step: int): (r: Option<Outcome>)
    requires st.ext.AddTransactionFields?
    ensures r.Some? <==> PagedCategoryPage(token, st.ext.add.categoryPage).Some?
  {
    match PagedCategoryPage(token, st.ext.add.categoryPage)
    case None => None
    case Some(page) => Some(ShowCategoryPage(WithAdd(st, st.ext.add.(categoryPage := page)), step))
  }

  function ShowCategoryError(st: UssdState, step: int): (r: Outcome)
    requires st.ext.AddTransactionFields?
  {
    match GetCategoryList(st.ext.add.categoryPage)
    case None => Raised(st)
    case Some(list) =>
      Done(UssdHandlerResult(
        Continue("Invalid option. Please enter a number between 1 and " + IntToString(|Categories|) + ":\n"
                 + list + GetNavigationOptionsForCategory(step)),
        st))
  }

  /** Step 1: blank input shows the picker; then control tokens, paging, and a category
      number; anything else re-shows the picker under an error line. */
  function HandleCategoryStep(svc: TransactionService, input: string, st: UssdState): (r: Outcome)
    requires st.ext.AddTransactionFields?
  {
    if IsBlank(input) then ShowCategoryPage(st, StepCategory)
    else
      var token := Trim(input);
      var s := HandleNavigation(F, input, st, StepCategory);
      if s.currentStep != StepCategory || s.currentMenu != MenuText(MenuName(F)) then
        HandleCategoryNavigationChange(s, StepCategory)
      else match HandleCategoryPagination(token, s, StepCategory)
        case Some(o) => o
        case None =>
          match TryParseCategorySelection(token)
          case Some(category) =>
            Done(ProcessStepCompletion(svc, StepCategory,
                                       WithAdd(s, s.ext.add.(transactionCategory := Some(category), categoryPage := 0)), None))
          case None => ShowCategoryError(s, StepCategory)
  }

  /** Step 2: a positive decimal amount. */
  function HandleAmountStep(svc: TransactionService, input: string, st: UssdState): (r: UssdHandlerResult)
    requires st.ext.AddTransactionFields?
  {
    match HandleStepPreprocessing(F, input, st, StepAmount, AmountPrompt)
    case Respond(res) => res
    case Proceed(s) =>
      match ParseDecimal(Trim(input))
      case None => ReturnError(s, StepAmount, InvalidAmount)
      case Some(amount) =>
        if amount <= 0.0 then ReturnError(s, StepAmount, InvalidAmount)
        else ProcessStepCompletion(svc, StepAmount, WithAdd(s, s.ext.add.(transactionAmount := Some(amount))), None)
  }

  /** Step 3: non-blank text, stored trimmed. */
  function HandleDescriptionStep(svc: TransactionService, input: string, st: UssdState): (r: UssdHandlerResult)
    requires st.ext.AddTransactionFields?
  {
    match HandleStepPreprocessing(F, input, st, StepDescription, DescriptionPrompt)
    case Respond(res) => res
    case Proceed(s) =>
      var description := Trim(input);
      if IsBlank(description) then ReturnError(s, StepDescription, EmptyDescription)
      else ProcessStepCompletion(svc, StepDescription, WithAdd(s, s.ext.add.(transactionDescription := Some(description))), None)
  }

  /** Step 4: the record is created first; blank input then completes, other input is
      preprocessed against the confirmation summary and otherwise completes. */
  function HandleConfirmationStep(svc: TransactionService, input: string, st: UssdState): (r: UssdHandlerResult)
    requires st.ext.AddTransactionFields?
  {
    var created := CreateTransaction(svc, st);
    if created.None? then UssdHandlerResult(End(TransactionCreationFailed), st)
    else if IsBlank(input) then ProcessStepCompletion(svc, StepConfirmation, st, created)
    else
      var prompt := ConfirmationPrompt + "\n" + FormatTransactionConfirmation(created.value);
      match HandleStepPreprocessing(F, input, st, StepConfirmation, prompt)
      case Respond(res) => res
      case Proceed(s) => ProcessStepCompletion(svc, StepConfirmation, s, created)
  }

  /** The step handlers by step number, on the converted state; another step number ends
      the session with the generic apology. */
  function DispatchStep(svc: TransactionService, input: string, ts: UssdState): (r: Outcome)
    requires ts.ext.AddTransactionFields?
  {
    if ts.currentStep == StepTransactionType then Done(HandleTransactionType(svc, input, ts))
    else if ts.currentStep == StepCategory then HandleCategoryStep(svc, input, ts)
    else if ts.currentStep == StepAmount then Done(HandleAmountStep(svc, input, ts))
    else if ts.currentStep == StepDescription then Done(HandleDescriptionStep(svc, input, ts))
    else if ts.currentStep == StepConfirmation then Done(HandleConfirmationStep(svc, input, ts))
    else Done(UssdHandlerResult(End(GenericError), ts))
  }

  /** The handler entry point. At the main menu it answers an empty `CON`. An exception
      ends the session with the generic apology and hands back the object it was given:
      the converted copy is dropped, while an object that needed no conversion carries
      the changes made before the exception. */
  function HandleAsync(svc: TransactionService, req: UssdRequest, st: UssdState): (r: UssdHandlerResult)
  {
    if AtMenu(st, MainMenu) then UssdHandlerResult(Continue(""), st)
    else
      var ts := EnsureAddTransactionState(st);
      match DispatchStep(svc, req.input, ts)
      case Done(res) => res
      case Raised(at) => UssdHandlerResult(End(GenericError), if st.ext.AddTransactionFields? then at else st)
  }
}
