/** The transaction-history handler as functions from (service, input, state) to the
    response and the state object to persist: a paginated, numbered listing whose numbers
    are cached for selection, and the detail of the selected record, which ends the session. */
module TransactionHistoryFlow {
  import opened Wrappers
  import opened Text
  import opened UssdModels
  import opened TransactionHistorySteps
  import opened Navigation

  const F: Flow := TransactionHistoryFlow

  function WithHistory(st: UssdState, h: TransactionHistoryData): UssdState
  {
    st.(ext := TransactionHistoryFields(h))
  }

  /** The state as a `TransactionHistoryState`: unchanged when it already is one, otherwise
      a fresh copy of the base fields at page 0 with no selection and an empty cache. */
  function EnsureTransactionHistoryState(st: UssdState): (r: UssdState)
    ensures r.ext.TransactionHistoryFields? && r == st.(ext := r.ext)
    ensures st.ext.TransactionHistoryFields? ==> r == st
    ensures !st.ext.TransactionHistoryFields? ==> r.ext.history == EmptyTransactionHistoryData
  {
    if st.ext.TransactionHistoryFields? then st else WithHistory(st, EmptyTransactionHistoryData)
  }

  /** The listing of the state's page, newest first; `None` when the service throws. */
  function LoadTransactions(svc: TransactionService, st: UssdState): Option<ListedTransactions>
    requires st.ext.TransactionHistoryFields?
  {
    svc.getAllTransactions(ListQuery(st.ext.history.transactionPage))
  }

  /** The listing screen: the prompt line, then the numbered rows of `page` (the list
      step's own option line is empty: "# Back" is part of the page indicators). */
  function ListScreen(l: ListedTransactions, page: int): string
  {
    TransactionListPrompt + "\n" + FormatTransactionList(l.transactions, page, l.totalCount)
  }

  /** The page of the state is loaded, its rows are cached under their display numbers,
      and the listing is shown. */
  function ShowTransactionListPage(svc: TransactionService, st: UssdState): (r: Outcome)
    requires st.ext.TransactionHistoryFields?
    ensures r.Raised? <==> LoadTransactions(svc, st).None?
    ensures r.Raised? ==> r.at == st
  {
    var h := st.ext.history;
    match LoadTransactions(svc, st)
    case None => Raised(st)
    case Some(l) =>
      var s := WithHistory(st, h.(displayedTransactions := CacheDisplayedTransactions(l.transactions, h.transactionPage, h.displayedTransactions)));
      Done(UssdHandlerResult(Continue(ListScreen(l, h.transactionPage)), s))
  }

  /** A control token left the list step: the pager rewinds, then the new step's prompt,
      or an empty `CON` when the menu changed. */
  function HandleTransactionListNavigationChange(svc: TransactionService, st: UssdState, step: int): (r: Outcome)
    requires st.ext.TransactionHistoryFields?
  {
    var s := WithHistory(st, st.ext.history.(transactionPage := 0));
    if s.currentStep != step then
      Done(UssdHandlerResult(Continue(GetPromptForStep(F, s.currentStep) + GetNavigationOptions(s.currentStep)), s))
    else if s.currentMenu != MenuText(MenuName(F)) then Done(UssdHandlerResult(Continue(""), s))
    else ShowTransactionListPage(svc, s)
  }

  /** Paging commands against the listing `l` of the current page: move and re-show when a
      page exists in that direction, otherwise a notice above the current listing with the
      state unchanged; `None` for any other input. */
  function HandleTransactionListPagination(svc: TransactionService, token: string, st: UssdState, l: ListedTransactions): (r: Option<Outcome>)
    requires st.ext.TransactionHistoryFields?
    ensures r.Some? <==> token == NextPageCommand || token == PreviousPageCommand
  {
    var h := st.ext.history;
    var totalPages := GetTotalPages(l.totalCount);
    if token == NextPageCommand then
      if h.transactionPage < totalPages - 1 then
        Some(ShowTransactionListPage(svc, WithHistory(st, h.(transactionPage := h.transactionPage + 1))))
      else Some(Done(UssdHandlerResult(Continue(AlreadyOnLastPage + "\n\n" + ListScreen(l, h.transactionPage)), st)))
    else if token == PreviousPageCommand then
      if h.transactionPage > 0 then
        Some(ShowTransactionListPage(svc, WithHistory(st, h.(transactionPage := h.transactionPage - 1))))
      else Some(Done(UssdHandlerResult(Continue(AlreadyOnFirstPage + "\n\n" + ListScreen(l, h.transactionPage)), st)))
    else None
  }

  /** The invalid-selection screen: the notice, then the current listing. */
  function ShowTransactionSelectionError(st: UssdState, l: ListedTransactions): UssdHandlerResult
    requires st.ext.TransactionHistoryFields?
  {
    var h := st.ext.history;
    UssdHandlerResult(Continue(SelectionErrorMessage(h.displayedTransactions) + "\n\n" + ListScreen(l, h.transactionPage)), st)
  }

  /** Ends the flow with the record's detail, clearing the history data at step 0. Without
      a record the lookup is repeated inside the method's own handler: no record ends with
      "not found", a failing lookup with the load error. */
  function CompleteTransactionHistory(svc: TransactionService, st: UssdState, t: Option<Transaction>): (r: UssdHandlerResult)
    requires st.ext.TransactionHistoryFields?
    ensures r.response.End?
  {
    var found :=
      if t.Some? then Found(t.value) else LoadTransactionById(svc, st.ext.history.selectedTransactionId);
    match found
    case NotFound => UssdHandlerResult(End(TransactionNotFound), st)
    case LookupFailed => UssdHandlerResult(End(TransactionLoadError), st)
    case Found(x) =>
      UssdHandlerResult(End(TransactionDetailPrompt + "\n" + FormatTransactionDetail(x) + ThankYou),
                        TransactionHistorySteps.ClearTransactionData(st).(currentStep := 0))
  }

  /** The record to complete with: the one passed in, or a lookup of the selection made
      outside any handler (a failing lookup throws). */
  function RecordForCompletion(svc: TransactionService, st: UssdState, t: Option<Transaction>): (r: Outcome)
    requires st.ext.TransactionHistoryFields?
    ensures r.Raised? ==> r.at == st
  {
    if t.Some? then Done(CompleteTransactionHistory(svc, st, t))
    else match LoadTransactionById(svc, st.ext.history.selectedTransactionId)
      case LookupFailed => Raised(st)
      case NotFound => Done(CompleteTransactionHistory(svc, st, None))
      case Found(x) => Done(CompleteTransactionHistory(svc, st, Some(x)))
  }

  /** After a step's input is accepted: the last step completes; otherwise the flow moves
      on, completing at once when the new step is the last one, else prompting it. */
  function ProcessStepCompletion(svc: TransactionService, currentStep: int, st: UssdState, t: Option<Transaction>): (r: Outcome)
    requires st.ext.TransactionHistoryFields?
  {
    if IsLastStep(F, currentStep) then RecordForCompletion(svc, st, t)
    else
      var next := GetNextStep(F, currentStep);
      var s := st.(currentStep := next);
      if IsLastStep(F, next) then RecordForCompletion(svc, s, t)
      else Done(UssdHandlerResult(Continue(GetPromptForStep(F, next) + GetNavigationOptions(next)), s))
  }

  /** Step 0: blank input shows the page; then control tokens, paging, and a cached row
      number; anything else re-shows the listing under the valid numbers. */
  function HandleTransactionListStep(svc: TransactionService, input: string, st: UssdState): (r: Outcome)
    requires st.ext.TransactionHistoryFields?
  {
    if IsBlank(input) then ShowTransactionListPage(svc, st)
    else
      var token := Trim(input);
      var s := HandleNavigation(F, input, st, StepTransactionList);
      if s.currentStep != StepTransactionList || s.currentMenu != MenuText(MenuName(F)) then
        HandleTransactionListNavigationChange(svc, s, StepTransactionList)
      else match LoadTransactions(svc, s)
        case None => Raised(s)
        case Some(l) => HandleLoadedListInput(svc, token, s, l)
  }

  /** The list step once the current page `l` is loaded: paging commands, then a cached
      row number, then the invalid-selection screen. */
  function HandleLoadedListInput(svc: TransactionService, token: string, st: UssdState, l: ListedTransactions): (r: Outcome)
    requires st.ext.TransactionHistoryFields?
  {
    match HandleTransactionListPagination(svc, token, st, l)
    case Some(o) => o
    case None =>
      match TryParseTransactionSelection(token, st.ext.history.displayedTransactions)
      case Some(id) =>
        ProcessStepCompletion(svc, StepTransactionList, WithHistory(st, st.ext.history.(selectedTransactionId := Some(id))), None)
      case None => Done(ShowTransactionSelectionError(st, l))
  }

  /** Step 1: the selected record is looked up first. When it has vanished the flow falls
      back to the list with a notice; otherwise blank input completes, and other input is
      preprocessed against the detail screen and otherwise completes. */
  function HandleTransactionDetailStep(svc: TransactionService, input: string, st: UssdState): (r: Outcome)
    requires st.ext.TransactionHistoryFields?
  {
    match LoadTransactionById(svc, st.ext.history.selectedTransactionId)
    case LookupFailed => Raised(st)
    case NotFound =>
      var s := WithHistory(st, st.ext.history.(selectedTransactionId := None)).(currentStep := GetPreviousStep(StepTransactionDetail));
      (match LoadTransactions(svc, s)
       case None => Raised(s)
       case Some(l) =>
         Done(UssdHandlerResult(Continue(TransactionNotFoundWithHistory + "\n\n" + ListScreen(l, s.ext.history.transactionPage)), s)))
    case Found(t) =>
      if IsBlank(input) then ProcessStepCompletion(svc, StepTransactionDetail, st, Some(t))
      else
        var prompt := TransactionDetailPrompt + "\n" + FormatTransactionDetail(t);
        match HandleStepPreprocessing(F, input, st, StepTransactionDetail, prompt)
        case Respond(res) => Done(res)
        case Proceed(s) => ProcessStepCompletion(svc, StepTransactionDetail, s, Some(t))
  }

  /** The step handlers by step number, on the converted state; another step number ends
      the session with the generic apology. */
  function DispatchStep(svc: TransactionService, input: string, ts: UssdState): (r: Outcome)
    requires ts.ext.TransactionHistoryFields?
  {
    if ts.currentStep == StepTransactionList then HandleTransactionListStep(svc, input, ts)
    else if ts.currentStep == StepTransactionDetail then HandleTransactionDetailStep(svc, input, ts)
    else Done(UssdHandlerResult(End(GenericError), ts))
  }

  /** The handler entry point. At the main menu it answers an empty `CON`. An exception
      ends the session with the generic apology and hands back the object it was given. */
  function HandleAsync(svc: TransactionService, req: UssdRequest, st: UssdState): (r: UssdHandlerResult)
  {
    if AtMenu(st, MainMenu) then UssdHandlerResult(Continue(""), st)
    else
      var ts := EnsureTransactionHistoryState(st);
      match DispatchStep(svc, req.input, ts)
      case Done(res) => res
      case Raised(at) => UssdHandlerResult(End(GenericError), if st.ext.TransactionHistoryFields? then at else st)
  }
}
