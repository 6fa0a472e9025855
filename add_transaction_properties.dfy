/** What the add-transaction handler guarantees, step by step, and the invariant it keeps
    on the sessions it leaves open. */
module AddTransactionProperties {
  import opened Wrappers
  import opened Text
  import opened UssdModels
  import opened AddTransactionSteps
  import opened Navigation
  import opened AddTransactionFlow

  /** A session inside the flow as the handler leaves it between requests: at the
      add-transaction menu, at one of the four input steps, with the picker on a real page
      whenever the entry fields exist. */
  predicate ValidAddSession(st: UssdState)
  {
    && AtMenu(st, AddTransaction)
    && StepTransactionType <= st.currentStep <= StepDescription
    && (st.ext.AddTransactionFields? ==> 0 <= st.ext.add.categoryPage < GetTotalPages())
  }

  /** Paging is clamped: "*" moves to the next page only below the last one and "**" to
      the previous only above the first; the page stays in range. */
  lemma CategoryPagingClamped(token: string, page: int)
    requires 0 <= page < GetTotalPages()
    ensures var r := PagedCategoryPage(token, page);
      && (r.Some? ==> 0 <= r.value < GetTotalPages())
      && (token == NextPageCommand ==> r == Some(if page < GetTotalPages() - 1 then page + 1 else page))
      && (token == PreviousPageCommand ==> r == Some(if page > 0 then page - 1 else page))
  {
  }

  /** At the main menu the handler answers an empty `CON` and leaves the state alone. */
  lemma AtMainMenuNothingHappens(svc: TransactionService, req: UssdRequest, st: UssdState)
    requires AtMenu(st, MainMenu)
    ensures HandleAsync(svc, req, st) == UssdHandlerResult(Continue(""), st)
  {
  }

  /** A state at the add-transaction menu is answered by its step's handler, applied to
      the state converted to the add-transaction shape. */
  lemma HandleAsyncRunsStep(svc: TransactionService, req: UssdRequest, st: UssdState)
    requires AtMenu(st, AddTransaction)
    ensures var ts := EnsureAddTransactionState(st);
      DispatchStep(svc, req.input, ts).Done? ==> HandleAsync(svc, req, st) == DispatchStep(svc, req.input, ts).result
  {
    var m := MenuText(MainMenu);
    var n := MenuText(AddTransaction);
    assert m != n by { assert m[1] != n[1]; }
  }

  /** The handler each in-range step number runs. */
  lemma HandleAsyncAtStep(svc: TransactionService, req: UssdRequest, st: UssdState)
    requires AtMenu(st, AddTransaction)
    ensures var ts := EnsureAddTransactionState(st);
      && (st.currentStep == StepTransactionType ==> HandleAsync(svc, req, st) == HandleTransactionType(svc, req.input, ts))
      && (st.currentStep == StepCategory && HandleCategoryStep(svc, req.input, ts).Done? ==>
            HandleAsync(svc, req, st) == HandleCategoryStep(svc, req.input, ts).result)
      && (st.currentStep == StepAmount ==> HandleAsync(svc, req, st) == HandleAmountStep(svc, req.input, ts))
      && (st.currentStep == StepDescription ==> HandleAsync(svc, req, st) == HandleDescriptionStep(svc, req.input, ts))
  {
    HandleAsyncRunsStep(svc, req, st);
  }

  /** Plain input at the state's own step passes preprocessing with the state untouched. */
  lemma PlainInputProceeds(input: string, ts: UssdState, prompt: string)
    requires AtMenu(ts, AddTransaction) && PlainInput(input)
    ensures HandleStepPreprocessing(F, input, ts, ts.currentStep, prompt) == Proceed(ts)
  {
    PreprocessingOutcomes(F, input, ts, prompt);
  }

  lemma TypeHandler(svc: TransactionService, input: string, ts: UssdState)
    requires ts.ext.AddTransactionFields? && ts.currentStep == StepTransactionType
    requires HandleStepPreprocessing(F, input, ts, StepTransactionType, TransactionTypePrompt) == Proceed(ts)
    ensures var r := HandleTransactionType(svc, input, ts);
      && (Trim(input) == "1" || Trim(input) == "2" ==>
            r.response == Continue(GetPromptForStep(F, StepCategory) + GetNavigationOptions(StepCategory))
            && r.updatedState == WithAdd(ts, ts.ext.add.(transactionType := Some(if Trim(input) == "1" then "Income" else "Expense"))).(currentStep := StepCategory))
      && (Trim(input) != "1" && Trim(input) != "2" ==>
            r == UssdHandlerResult(Continue(InvalidTransactionType + GetNavigationOptions(StepTransactionType)), ts))
  {
  }

  /** Step 0: "1" and "2" record Income and Expense and prompt the category step; any
      other plain input re-prompts with an error and changes nothing. */
  lemma TransactionTypeStep(svc: TransactionService, req: UssdRequest, st: UssdState)
    requires ValidAddSession(st) && st.currentStep == StepTransactionType && PlainInput(req.input)
    ensures var r := HandleAsync(svc, req, st);
      var ts := EnsureAddTransactionState(st);
      && (Trim(req.input) == "1" || Trim(req.input) == "2" ==>
            r.response == Continue(GetPromptForStep(F, StepCategory) + GetNavigationOptions(StepCategory))
            && r.updatedState == WithAdd(ts, ts.ext.add.(transactionType := Some(if Trim(req.input) == "1" then "Income" else "Expense"))).(currentStep := StepCategory))
      && (Trim(req.input) != "1" && Trim(req.input) != "2" ==>
            r == UssdHandlerResult(Continue(InvalidTransactionType + GetNavigationOptions(StepTransactionType)), ts))
  {
    var ts := EnsureAddTransactionState(st);
    PlainInputProceeds(req.input, ts, TransactionTypePrompt);
    TypeHandler(svc, req.input, ts);
    HandleAsyncAtStep(svc, req, st);
  }

  lemma CategoryStepAnswers(svc: TransactionService, req: UssdRequest, st: UssdState, r: UssdHandlerResult)
    requires AtMenu(st, AddTransaction) && st.currentStep == StepCategory
    requires HandleCategoryStep(svc, req.input, EnsureAddTransactionState(st)) == Done(r)
    ensures HandleAsync(svc, req, st) == r
  {
    HandleAsyncAtStep(svc, req, st);
  }

  /** Step 1: a category number selects that category whatever page the picker shows,
      rewinds the picker and prompts for the amount. */
  lemma CategorySelectionIgnoresPage(svc: TransactionService, req: UssdRequest, st: UssdState, n: int)
    requires ValidAddSession(st) && st.currentStep == StepCategory
    requires ParseInt(Trim(req.input)) == Some(n) && 1 <= n <= |Categories|
    ensures var r := HandleAsync(svc, req, st);
      var ts := EnsureAddTransactionState(st);
      && r.response == Continue(AmountPrompt + GetNavigationOptions(StepAmount))
      && r.updatedState == WithAdd(ts, ts.ext.add.(transactionCategory := Some(Categories[n - 1]), categoryPage := 0)).(currentStep := StepAmount)
  {
    var ts := EnsureAddTransactionState(st);
    var r := UssdHandlerResult(Continue(AmountPrompt + GetNavigationOptions(StepAmount)),
                               WithAdd(ts, ts.ext.add.(transactionCategory := Some(Categories[n - 1]), categoryPage := 0)).(currentStep := StepAmount));
    NumberIsPlainInput(req.input, n);
    CategoryStepAnswers(svc, req, st, r);
  }

  lemma AmountHandler(svc: TransactionService, input: string, ts: UssdState)
    requires ts.ext.AddTransactionFields? && ts.currentStep == StepAmount
    requires HandleStepPreprocessing(F, input, ts, StepAmount, AmountPrompt) == Proceed(ts)
    ensures var r := HandleAmountStep(svc, input, ts);
      var amount := ParseDecimal(Trim(input));
      && (amount.Some? && amount.value > 0.0 ==>
            r.response == Continue(DescriptionPrompt + GetNavigationOptions(StepDescription))
            && r.updatedState == WithAdd(ts, ts.ext.add.(transactionAmount := amount)).(currentStep := StepDescription))
      && (!(amount.Some? && amount.value > 0.0) ==>
            r == UssdHandlerResult(Continue(InvalidAmount + GetNavigationOptions(StepAmount)), ts))
  {
    match ParseDecimal(Trim(input))
    case None =>
    case Some(amount) =>
      if amount > 0.0 {
        var s := WithAdd(ts, ts.ext.add.(transactionAmount := Some(amount)));
        assert HandleAmountStep(svc, input, ts) == ProcessStepCompletion(svc, StepAmount, s, None);
      }
  }

  /** Step 2: a positive decimal is stored and the description is prompted; anything else
      that is not a control token re-prompts with an error and changes nothing. */
  lemma AmountStep(svc: TransactionService, req: UssdRequest, st: UssdState)
    requires ValidAddSession(st) && st.currentStep == StepAmount && PlainInput(req.input)
    ensures var r := HandleAsync(svc, req, st);
      var ts := EnsureAddTransactionState(st);
      var amount := ParseDecimal(Trim(req.input));
      && (amount.Some? && amount.value > 0.0 ==>
            r.response == Continue(DescriptionPrompt + GetNavigationOptions(StepDescription))
            && r.updatedState == WithAdd(ts, ts.ext.add.(transactionAmount := amount)).(currentStep := StepDescription))
      && (!(amount.Some? && amount.value > 0.0) ==>
            r == UssdHandlerResult(Continue(InvalidAmount + GetNavigationOptions(StepAmount)), ts))
  {
    var ts := EnsureAddTransactionState(st);
    PlainInputProceeds(req.input, ts, AmountPrompt);
    AmountHandler(svc, req.input, ts);
    HandleAsyncAtStep(svc, req, st);
  }

  /** The record the description step asks the service for, or `None` when it cannot. */
  function CreatedOnDescription(svc: TransactionService, a: AddTransactionData, description: string): Option<Transaction>
  {
    if a.transactionAmount.None? then None
    else svc.createTransaction(NewTransaction(a.transactionType, a.transactionCategory,
                                              a.transactionAmount.value, description))
  }

  lemma DescriptionHandler(svc: TransactionService, input: string, ts: UssdState)
    requires ts.ext.AddTransactionFields? && ts.currentStep == StepDescription && !IsBlank(Trim(input))
    requires HandleStepPreprocessing(F, input, ts, StepDescription, DescriptionPrompt) == Proceed(ts)
    ensures var r := HandleDescriptionStep(svc, input, ts);
      var created := CreatedOnDescription(svc, ts.ext.add, Trim(input));
      && (created.Some? ==>
            r == UssdHandlerResult(End("Transaction created successfully!\n\n" + FormatTransactionConfirmation(created.value) + ThankYou),
                                   WithAdd(ts, EmptyAddTransactionData).(currentStep := 0)))
      && (created.None? ==> r.response == End(TransactionCreationFailed))
  {
    var d := Trim(input);
    var s := WithAdd(ts, ts.ext.add.(transactionDescription := Some(d)));
    assert HandleDescriptionStep(svc, input, ts) == ProcessStepCompletion(svc, StepDescription, s, None);
    var s4 := s.(currentStep := StepConfirmation);
    assert CreateTransaction(svc, s4) == CreatedOnDescription(svc, ts.ext.add, d);
  }

  /** Step 3 finishes the flow in the same request: there is no confirmation prompt. The
      record is created from the collected type, category and amount and the trimmed
      description. On success the session ends with the summary and the entries cleared
      at step 0; otherwise it ends with the creation-failed message. The empty-description
      error is never produced, since blank input was already answered with the prompt. */
  lemma DescriptionStepFinalizes(svc: TransactionService, req: UssdRequest, st: UssdState)
    requires ValidAddSession(st) && st.currentStep == StepDescription && PlainInput(req.input)
    ensures var r := HandleAsync(svc, req, st);
      var ts := EnsureAddTransactionState(st);
      var created := CreatedOnDescription(svc, ts.ext.add, Trim(req.input));
      && (created.Some? ==>
            r == UssdHandlerResult(End("Transaction created successfully!\n\n" + FormatTransactionConfirmation(created.value) + ThankYou),
                                   WithAdd(ts, EmptyAddTransactionData).(currentStep := 0)))
      && (created.None? ==> r.response == End(TransactionCreationFailed))
  {
    var ts := EnsureAddTransactionState(st);
    PlainInputProceeds(req.input, ts, DescriptionPrompt);
    TrimmedPlainInputNotBlank(req.input);
    DescriptionHandler(svc, req.input, ts);
    HandleAsyncAtStep(svc, req, st);
  }

  /** A handler answer that keeps the session sound: never the generic apology, only a
      `CON` answer hands the session back to the main menu, and a `CON` answer keeps the
      entry fields with the picker in range and either is at the main menu or leaves the
      session valid. */
  predicate SoundAnswer(r: UssdHandlerResult)
  {
    && r.response != End(GenericError)
    && (AtMenu(r.updatedState, MainMenu) ==> r.response.Continue?)
    && (r.response.Continue? ==>
          PickerInRange(r.updatedState) && (AtMenu(r.updatedState, MainMenu) || ValidAddSession(r.updatedState)))
  }

  /** The state holds the entry fields, with the picker on a real page. */
  predicate PickerInRange(st: UssdState)
  {
    st.ext.AddTransactionFields? && 0 <= st.ext.add.categoryPage < GetTotalPages()
  }

  /** Preprocessing a valid session either answers soundly or proceeds with it untouched. */
  lemma PreprocessingKeepsValid(input: string, ts: UssdState, prompt: string)
    requires ValidAddSession(ts) && ts.ext.AddTransactionFields?
    ensures var p := HandleStepPreprocessing(F, input, ts, ts.currentStep, prompt);
      && (p.Respond? ==> p.result.response.Continue? && SoundAnswer(p.result))
      && (p.Proceed? ==> p.st == ts)
  {
    PreprocessingOutcomes(F, input, ts, prompt);
    if !IsBlank(input) && Trim(input) == BackCommand && ts.currentStep > FirstStep {
      NavigationEffect(F, input, ts, ts.currentStep);
    }
  }

  lemma TypeStepKeepsValid(svc: TransactionService, input: string, ts: UssdState)
    requires ValidAddSession(ts) && ts.ext.AddTransactionFields? && ts.currentStep == StepTransactionType
    ensures SoundAnswer(HandleTransactionType(svc, input, ts))
  {
    PreprocessingKeepsValid(input, ts, TransactionTypePrompt);
  }

  lemma AmountStepKeepsValid(svc: TransactionService, input: string, ts: UssdState)
    requires ValidAddSession(ts) && ts.ext.AddTransactionFields? && ts.currentStep == StepAmount
    ensures SoundAnswer(HandleAmountStep(svc, input, ts))
  {
    PreprocessingKeepsValid(input, ts, AmountPrompt);
  }

  lemma DescriptionStepKeepsValid(svc: TransactionService, input: string, ts: UssdState)
    requires ValidAddSession(ts) && ts.ext.AddTransactionFields? && ts.currentStep == StepDescription
    ensures SoundAnswer(HandleDescriptionStep(svc, input, ts))
  {
    PreprocessingKeepsValid(input, ts, DescriptionPrompt);
    var e := "An error occurred. Please dial again to restart.";
    assert GenericError[0] == e[0];
  }

  /** The picker is shown soundly on any page of the valid range. */
  lemma PickerKeepsValid(st: UssdState, step: int)
    requires ValidAddSession(st) && st.ext.AddTransactionFields?
    ensures ShowCategoryPage(st, step).Done? && SoundAnswer(ShowCategoryPage(st, step).result)
    ensures ShowCategoryError(st, step).Done? && SoundAnswer(ShowCategoryError(st, step).result)
  {
  }

  /** Leaving the category step through a control token answers soundly. */
  lemma CategoryNavigationKeepsValid(input: string, ts: UssdState)
    requires ValidAddSession(ts) && ts.ext.AddTransactionFields? && ts.currentStep == StepCategory
    requires var s := HandleNavigation(F, input, ts, StepCategory);
      s.currentStep != StepCategory || s.currentMenu != MenuText(MenuName(F))
    ensures var s := HandleNavigation(F, input, ts, StepCategory);
      HandleCategoryNavigationChange(s, StepCategory).Done? && SoundAnswer(HandleCategoryNavigationChange(s, StepCategory).result)
  {
    NavigationEffect(F, input, ts, StepCategory);
  }

  /** A paging command re-shows the picker soundly. */
  lemma CategoryPagingKeepsValid(token: string, ts: UssdState)
    requires ValidAddSession(ts) && ts.ext.AddTransactionFields?
    ensures var o := HandleCategoryPagination(token, ts, StepCategory);
      o.Some? ==> o.value.Done? && SoundAnswer(o.value.result)
  {
    match PagedCategoryPage(token, ts.ext.add.categoryPage)
    case Some(page) =>
      CategoryPagingClamped(token, ts.ext.add.categoryPage);
      PickerKeepsValid(WithAdd(ts, ts.ext.add.(categoryPage := page)), StepCategory);
    case None =>
  }

  /** A category answer that is not a paging command is taken or re-asked soundly. */
  lemma CategorySelectionKeepsValid(svc: TransactionService, token: string, ts: UssdState)
    requires ValidAddSession(ts) && ts.ext.AddTransactionFields? && ts.currentStep == StepCategory
    ensures var o := match TryParseCategorySelection(token)
        case Some(category) =>
          Done(ProcessStepCompletion(svc, StepCategory,
                                     WithAdd(ts, ts.ext.add.(transactionCategory := Some(category), categoryPage := 0)), None))
        case None => ShowCategoryError(ts, StepCategory);
      o.Done? && SoundAnswer(o.result)
  {
    PickerKeepsValid(ts, StepCategory);
  }

  lemma CategoryStepKeepsValid(svc: TransactionService, input: string, ts: UssdState)
    requires ValidAddSession(ts) && ts.ext.AddTransactionFields? && ts.currentStep == StepCategory
    ensures HandleCategoryStep(svc, input, ts).Done? && SoundAnswer(HandleCategoryStep(svc, input, ts).result)
  {
    if IsBlank(input) {
      PickerKeepsValid(ts, StepCategory);
    } else {
      var s := HandleNavigation(F, input, ts, StepCategory);
      if s.currentStep != StepCategory || s.currentMenu != MenuText(MenuName(F)) {
        CategoryNavigationKeepsValid(input, ts);
      } else {
        assert s == ts by {
          NavigationEffect(F, input, ts, StepCategory);
        }
        CategoryPagingKeepsValid(Trim(input), ts);
        CategorySelectionKeepsValid(svc, Trim(input), ts);
      }
    }
  }

  /** The flow keeps its sessions valid: from a valid session no input ends in the generic
      apology (no exception is possible), and every `CON` answer leaves the session valid or
      at the main menu. A valid session is therefore never at the confirmation step when
      the next request arrives. */
  lemma HandleAsyncKeepsSessionValid(svc: TransactionService, req: UssdRequest, st: UssdState)
    requires ValidAddSession(st)
    ensures SoundAnswer(HandleAsync(svc, req, st))
  {
    var ts := EnsureAddTransactionState(st);
    assert ValidAddSession(ts);
    HandleAsyncAtStep(svc, req, st);
    if st.currentStep == StepTransactionType {
      TypeStepKeepsValid(svc, req.input, ts);
    } else if st.currentStep == StepCategory {
      CategoryStepKeepsValid(svc, req.input, ts);
    } else if st.currentStep == StepAmount {
      AmountStepKeepsValid(svc, req.input, ts);
    } else {
      DescriptionStepKeepsValid(svc, req.input, ts);
    }
  }

  /** Blank input at any input step re-prompts (at the category step: re-shows the picker
      page) and leaves the converted session as it was. So the same blank request delivered
      again, to that session with its id or timestamp restamped, gets the same answer and
      leaves the same session: nothing advances twice. */
  lemma BlankInputRepeats(svc: TransactionService, req: UssdRequest, st: UssdState, sid: Option<string>, t: int)
    requires ValidAddSession(st) && IsBlank(req.input)
    ensures var r := HandleAsync(svc, req, st);
      var u := r.updatedState.(sessionId := sid, lastUpdated := t);
      && r.response.Continue?
      && r.updatedState == EnsureAddTransactionState(st)
      && HandleAsync(svc, req, u) == r.(updatedState := u)
  {
    var ts := EnsureAddTransactionState(st);
    var u := ts.(sessionId := sid, lastUpdated := t);
    assert EnsureAddTransactionState(u) == u;
    HandleAsyncAtStep(svc, req, st);
    HandleAsyncAtStep(svc, req, u);
    if st.currentStep == StepTransactionType {
      PreprocessingOutcomes(F, req.input, ts, TransactionTypePrompt);
      PreprocessingOutcomes(F, req.input, u, TransactionTypePrompt);
    } else if st.currentStep == StepAmount {
      PreprocessingOutcomes(F, req.input, ts, AmountPrompt);
      PreprocessingOutcomes(F, req.input, u, AmountPrompt);
    } else if st.currentStep == StepDescription {
      PreprocessingOutcomes(F, req.input, ts, DescriptionPrompt);
      PreprocessingOutcomes(F, req.input, u, DescriptionPrompt);
    }
  }
}
