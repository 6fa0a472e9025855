/** What the transaction-history handler guarantees: numbering and caching of the listed
    rows, clamped paging, selection that ends the session with the record, and the
    invariant it keeps on the sessions it leaves open. */
module TransactionHistoryProperties {
  import opened Wrappers
  import opened IntMath
  import opened Text
  import opened UssdModels
  import opened TransactionHistorySteps
  import opened Navigation
  import opened TransactionHistoryFlow

  /** A history session as the handler leaves it between requests: at its menu, at the
      list step, on a page that is not negative. */
  predicate ValidHistorySession(st: UssdState)
  {
    && AtMenu(st, TransactionHistory)
    && st.currentStep == StepTransactionList
    && (st.ext.TransactionHistoryFields? ==> st.ext.history.transactionPage >= 0)
  }

  /** Row numbers never collide: on pages of five rows, two different (page, row) pairs are
      shown under different numbers, and every number is at least 1. */
  lemma DisplayNumbersAreDistinct(p: int, i: int, q: int, j: int)
    requires p >= 0 && q >= 0 && 0 <= i < TransactionsPerPage && 0 <= j < TransactionsPerPage
    ensures DisplayNumber(p, i) >= 1
    ensures DisplayNumber(p, i) == DisplayNumber(q, j) ==> p == q && i == j
  {
    if p < q {
      MulMonotone(p + 1, q, TransactionsPerPage);
    } else if q < p {
      MulMonotone(q + 1, p, TransactionsPerPage);
    }
  }

  /** Once a page is shown, typing the number printed in front of a row selects that row
      (as long as the number fits the 32 bits `int.TryParse` reads). */
  lemma ShownNumberSelectsRow(rows: seq<Transaction>, page: int, cache: map<int, string>, i: int)
    requires page >= 0 && 0 <= i < |rows| && IsInt32(DisplayNumber(page, i))
    ensures var c := CacheDisplayedTransactions(rows, page, cache);
      TryParseTransactionSelection(IntToString(DisplayNumber(page, i)), c) == Some(rows[i].id)
  {
    var c := CacheDisplayedTransactions(rows, page, cache);
    assert DisplayNumber(page, i) in c && c[DisplayNumber(page, i)] == rows[i].id;
    ParseIntOfIntToString(DisplayNumber(page, i));
  }

  /** Showing a page loads exactly that page (1-based, five rows, newest first), caches
      every row under its number without dropping earlier numbers, keeps the page, and
      answers the listing; a failing load raises with the state untouched. */
  lemma ShowingAPageCachesIt(svc: TransactionService, st: UssdState)
    requires st.ext.TransactionHistoryFields?
    ensures var o := ShowTransactionListPage(svc, st);
      var h := st.ext.history;
      var q := svc.getAllTransactions(TransactionFilters(h.transactionPage + 1, TransactionsPerPage, true));
      && (q.None? ==> o == Raised(st))
      && (q.Some? ==>
            && o.Done?
            && o.result.response == Continue(ListScreen(q.value, h.transactionPage))
            && o.result.updatedState == st.(ext := o.result.updatedState.ext)
            && o.result.updatedState.ext.TransactionHistoryFields?
            && var g := o.result.updatedState.ext.history;
            && g.transactionPage == h.transactionPage && g.selectedTransactionId == h.selectedTransactionId
            && h.displayedTransactions.Keys <= g.displayedTransactions.Keys
            && forall i :: 0 <= i < |q.value.transactions| ==>
                 DisplayNumber(h.transactionPage, i) in g.displayedTransactions
                 && g.displayedTransactions[DisplayNumber(h.transactionPage, i)] == q.value.transactions[i].id)
  {
    assert ListQuery(st.ext.history.transactionPage) == TransactionFilters(st.ext.history.transactionPage + 1, TransactionsPerPage, true);
  }

  /** Paging is clamped against the total count: "*" below the last page and "**" above
      the first move one page and show it; at the ends a notice sits above the current
      listing and nothing changes. The page never leaves 0 .. last. */
  lemma PagingIsClamped(svc: TransactionService, token: string, st: UssdState, l: ListedTransactions)
    requires st.ext.TransactionHistoryFields?
    ensures var o := HandleTransactionListPagination(svc, token, st, l);
      var h := st.ext.history;
      var last := GetTotalPages(l.totalCount) - 1;
      && (token == NextPageCommand && h.transactionPage < last ==>
            o == Some(ShowTransactionListPage(svc, WithHistory(st, h.(transactionPage := h.transactionPage + 1))))
            && h.transactionPage + 1 <= last)
      && (token == NextPageCommand && h.transactionPage >= last ==>
            o == Some(Done(UssdHandlerResult(Continue(AlreadyOnLastPage + "\n\n" + ListScreen(l, h.transactionPage)), st))))
      && (token == PreviousPageCommand && h.transactionPage > 0 ==>
            o == Some(ShowTransactionListPage(svc, WithHistory(st, h.(transactionPage := h.transactionPage - 1))))
            && h.transactionPage - 1 >= 0)
      && (token == PreviousPageCommand && h.transactionPage <= 0 ==>
            o == Some(Done(UssdHandlerResult(Continue(AlreadyOnFirstPage + "\n\n" + ListScreen(l, h.transactionPage)), st))))
  {
  }

  /** Selecting a cached number ends the session at once (there is no detail prompt): with
      the record's detail and the history cleared at step 0 when the record exists, with
      "not found" when it does not, and with the generic apology when the lookup throws. */
  lemma SelectionEndsSession(svc: TransactionService, token: string, st: UssdState, l: ListedTransactions, id: string)
    requires st.ext.TransactionHistoryFields? && st.currentStep == StepTransactionList
    requires token != NextPageCommand && token != PreviousPageCommand
    requires TryParseTransactionSelection(token, st.ext.history.displayedTransactions) == Some(id)
    ensures var o := HandleLoadedListInput(svc, token, st, l);
      var lookup := if IsBlank(id) then NotFound else svc.getTransactionById(id);
      && (lookup.Found? ==>
            o == Done(UssdHandlerResult(End(TransactionDetailPrompt + "\n" + FormatTransactionDetail(lookup.transaction) + ThankYou),
                                        WithHistory(st, EmptyTransactionHistoryData))))
      && (lookup.NotFound? ==> o.Done? && o.result.response == End(TransactionNotFound))
      && (lookup.LookupFailed? ==> o.Raised?)
  {
    var s := WithHistory(st, st.ext.history.(selectedTransactionId := Some(id)));
    assert HandleLoadedListInput(svc, token, st, l) == ProcessStepCompletion(svc, StepTransactionList, s, None);
    var s1 := s.(currentStep := StepTransactionDetail);
    assert ProcessStepCompletion(svc, StepTransactionList, s, None) == RecordForCompletion(svc, s1, None);
    assert LoadTransactionById(svc, Some(id)) == if IsBlank(id) then NotFound else svc.getTransactionById(id);
  }

  /** Any other input that is not a control token shows the valid numbers above the current
      listing and changes nothing. */
  lemma InvalidSelectionShowsValidNumbers(svc: TransactionService, token: string, st: UssdState, l: ListedTransactions)
    requires st.ext.TransactionHistoryFields?
    requires token != NextPageCommand && token != PreviousPageCommand
    requires TryParseTransactionSelection(token, st.ext.history.displayedTransactions).None?
    ensures HandleLoadedListInput(svc, token, st, l)
      == Done(UssdHandlerResult(Continue(SelectionErrorMessage(st.ext.history.displayedTransactions) + "\n\n"
                                         + ListScreen(l, st.ext.history.transactionPage)), st))
  {
  }

  /** The listing after plain input at the list step: the current page is loaded (a
      failure ends with the generic apology), then paging, selection or the error screen. */
  lemma PlainInputAtListStep(svc: TransactionService, input: string, ts: UssdState)
    requires ts.ext.TransactionHistoryFields? && AtMenu(ts, TransactionHistory) && ts.currentStep == StepTransactionList
    requires PlainInput(input)
    ensures HandleTransactionListStep(svc, input, ts)
      == match LoadTransactions(svc, ts)
         case None => Raised(ts)
         case Some(l) => HandleLoadedListInput(svc, Trim(input), ts, l)
  {
    NavigationEffect(F, input, ts, StepTransactionList);
  }

  /** When the selected record has vanished by the time the detail step runs, the flow
      falls back to the list step with a notice above the current listing and forgets the
      selection. */
  lemma VanishedRecordReturnsToList(svc: TransactionService, input: string, ts: UssdState, l: ListedTransactions)
    requires ts.ext.TransactionHistoryFields? && ts.currentStep == StepTransactionDetail
    requires LoadTransactionById(svc, ts.ext.history.selectedTransactionId) == NotFound
    requires svc.getAllTransactions(ListQuery(ts.ext.history.transactionPage)) == Some(l)
    ensures var o := HandleTransactionDetailStep(svc, input, ts);
      && o.Done?
      && o.result.response == Continue(TransactionNotFoundWithHistory + "\n\n" + ListScreen(l, ts.ext.history.transactionPage))
      && o.result.updatedState == WithHistory(ts, ts.ext.history.(selectedTransactionId := None)).(currentStep := StepTransactionList)
  {
  }

  /** A history answer that keeps the session sound: only a `CON` answer hands the session
      back to the main menu, and a `CON` answer keeps the history fields with the pager in
      range and either is at the main menu or leaves the session valid. */
  predicate SoundAnswer(r: UssdHandlerResult)
  {
    && (AtMenu(r.updatedState, MainMenu) ==> r.response.Continue?)
    && (r.response.Continue? ==>
          PagerInRange(r.updatedState) && (AtMenu(r.updatedState, MainMenu) || ValidHistorySession(r.updatedState)))
  }

  /** The state holds the history fields, with the pager on a non-negative page. */
  predicate PagerInRange(st: UssdState)
  {
    st.ext.TransactionHistoryFields? && st.ext.history.transactionPage >= 0
  }

  predicate SoundOutcome(o: Outcome)
  {
    && (o.Done? ==> SoundAnswer(o.result))
    && (o.Raised? ==> !AtMenu(o.at, MainMenu))
  }

  lemma ShowingKeepsValid(svc: TransactionService, st: UssdState)
    requires ValidHistorySession(st) && st.ext.TransactionHistoryFields?
    ensures SoundOutcome(ShowTransactionListPage(svc, st))
  {
  }

  lemma LoadedInputKeepsValid(svc: TransactionService, token: string, st: UssdState, l: ListedTransactions)
    requires ValidHistorySession(st) && st.ext.TransactionHistoryFields?
    ensures SoundOutcome(HandleLoadedListInput(svc, token, st, l))
  {
    var h := st.ext.history;
    PagingIsClamped(svc, token, st, l);
    if token == NextPageCommand && h.transactionPage < GetTotalPages(l.totalCount) - 1 {
      ShowingKeepsValid(svc, WithHistory(st, h.(transactionPage := h.transactionPage + 1)));
    } else if token == PreviousPageCommand && h.transactionPage > 0 {
      ShowingKeepsValid(svc, WithHistory(st, h.(transactionPage := h.transactionPage - 1)));
    } else if token != NextPageCommand && token != PreviousPageCommand {
      match TryParseTransactionSelection(token, h.displayedTransactions)
      case Some(id) => SelectionEndsSession(svc, token, st, l, id);
      case None =>
    }
  }

  lemma ListStepKeepsValid(svc: TransactionService, input: string, ts: UssdState)
    requires ValidHistorySession(ts) && ts.ext.TransactionHistoryFields?
    ensures SoundOutcome(HandleTransactionListStep(svc, input, ts))
  {
    if IsBlank(input) {
      ShowingKeepsValid(svc, ts);
    } else if PlainInput(input) {
      PlainInputAtListStep(svc, input, ts);
      match LoadTransactions(svc, ts)
      case None =>
      case Some(l) => LoadedInputKeepsValid(svc, Trim(input), ts, l);
    } else {
      NavigationEffect(F, input, ts, StepTransactionList);
      var m := MenuText(MainMenu);
      var n := MenuText(TransactionHistory);
      assert m != n by { assert m[1] != n[1]; }
    }
  }

  /** The flow keeps its sessions valid: from a valid session every `CON` answer leaves the
      session at the list step on a non-negative page, or at the main menu. A valid session
      is therefore never at the detail step when the next request arrives. */
  lemma HandleAsyncKeepsSessionValid(svc: TransactionService, req: UssdRequest, st: UssdState)
    requires ValidHistorySession(st)
    ensures SoundAnswer(HandleAsync(svc, req, st))
  {
    var ts := EnsureTransactionHistoryState(st);
    var m := MenuText(MainMenu);
    var n := MenuText(TransactionHistory);
    assert m != n by { assert m[1] != n[1]; }
    ListStepKeepsValid(svc, req.input, ts);
  }

  /** End to end: at the list step, a cached number ends the session with the record's
      detail, or with "not found", or (when the lookup or the listing throws) with the
      generic apology; the response is never a `CON`. */
  lemma SelectingARowEndsTheSession(svc: TransactionService, req: UssdRequest, st: UssdState, id: string)
    requires ValidHistorySession(st) && st.ext.TransactionHistoryFields? && PlainInput(req.input)
    requires TryParseTransactionSelection(Trim(req.input), st.ext.history.displayedTransactions) == Some(id)
    ensures var r := HandleAsync(svc, req, st);
      var lookup := if IsBlank(id) then NotFound else svc.getTransactionById(id);
      && r.response.End?
      && (LoadTransactions(svc, st).Some? && lookup.Found? ==>
            r.response == End(TransactionDetailPrompt + "\n" + FormatTransactionDetail(lookup.transaction) + ThankYou))
      && (LoadTransactions(svc, st).Some? && lookup.NotFound? ==> r.response == End(TransactionNotFound))
      && (LoadTransactions(svc, st).None? || lookup.LookupFailed? ==> r.response == End(GenericError))
  {
    var m := MenuText(MainMenu);
    var n := MenuText(TransactionHistory);
    assert m != n by { assert m[1] != n[1]; }
    var token := Trim(req.input);
    assert token != NextPageCommand && token != PreviousPageCommand by {
      assert ParseInt(token).Some?;
    }
    PlainInputAtListStep(svc, req.input, st);
    match LoadTransactions(svc, st)
    case None =>
    case Some(l) => SelectionEndsSession(svc, token, st, l, id);
  }

  /** Blank input at the list step reloads the state's page and caches its rows. Caching
      the same rows under the same numbers twice changes nothing, so the same blank request
      delivered again, to the session it left with its id or timestamp restamped, gets the
      same listing and leaves the same session. Either way the session stays in the flow. */
  lemma BlankInputRepeats(svc: TransactionService, req: UssdRequest, st: UssdState, sid: Option<string>, t: int)
    requires ValidHistorySession(st) && IsBlank(req.input)
    ensures var r := HandleAsync(svc, req, st);
      var u := r.updatedState.(sessionId := sid, lastUpdated := t);
      && r.updatedState.currentMenu == st.currentMenu
      && (r.response.Continue? ==> HandleAsync(svc, req, u) == r.(updatedState := u))
  {
    var m := MenuText(MainMenu);
    var n := MenuText(TransactionHistory);
    assert m != n by { assert m[1] != n[1]; }
    var ts := EnsureTransactionHistoryState(st);
    var h := ts.ext.history;
    match LoadTransactions(svc, ts)
    case None =>
    case Some(l) =>
      var c := CacheDisplayedTransactions(l.transactions, h.transactionPage, h.displayedTransactions);
      var u := WithHistory(ts, h.(displayedTransactions := c)).(sessionId := sid, lastUpdated := t);
      assert LoadTransactions(svc, u) == Some(l);
      assert CacheDisplayedTransactions(l.transactions, h.transactionPage, c) == c;
  }
}
