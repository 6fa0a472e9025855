/** The session state as the mutable object the handlers share, with the routines that
    update it in place: the control-token navigation of the base handler with its clear
    hooks, the top menu's choice of a flow, and the history handler's row-number cache.
    Each is proved to leave the object holding the state the value model computes. The
    loops that build the picker and listing texts are here too, proved against the text
    functions of the value model. */
module UssdStateObject {
  import opened Wrappers
  import opened IntMath
  import opened Text
  import opened UssdModels
  import Navigation
  import Add = AddTransactionSteps
  import History = TransactionHistorySteps
  import MainMenuFlow

  /** A `UssdState` object. `ext` holds the fields of its runtime class; no method changes
      which class that is. */
  class StateObject {
    var phoneNumber: string
    var sessionId: Option<string>
    var currentMenu: string
    var currentStep: int
    var createdAt: int
    var lastUpdated: int
    var ext: Extension

    /** The state the object holds. */
    function Value(): UssdState
      reads this
    {
      UssdState(phoneNumber, sessionId, currentMenu, currentStep, createdAt, lastUpdated, ext)
    }

    constructor (st: UssdState)
      ensures Value() == st
    {
      phoneNumber := st.phoneNumber;
      sessionId := st.sessionId;
      currentMenu := st.currentMenu;
      currentStep := st.currentStep;
      createdAt := st.createdAt;
      lastUpdated := st.lastUpdated;
      ext := st.ext;
    }

    /** The clear-everything hook of flow `f`: the add flow forgets its four entries and
        rewinds the picker, the history flow rewinds the pager, forgets the selection and
        empties the cache, the balance flow keeps nothing. */
    method ClearTransactionData(f: Navigation.Flow)
      modifies this
      ensures Value() == Navigation.ClearTransactionData(f, old(Value()))
    {
      if f == Navigation.AddTransactionFlow && ext.AddTransactionFields? {
        ext := ext.(add := ext.add.(transactionType := None));
        ext := ext.(add := ext.add.(transactionCategory := None));
        ext := ext.(add := ext.add.(transactionAmount := None));
        ext := ext.(add := ext.add.(transactionDescription := None));
        ext := ext.(add := ext.add.(categoryPage := 0));
      } else if f == Navigation.TransactionHistoryFlow && ext.TransactionHistoryFields? {
        ext := ext.(history := ext.history.(transactionPage := 0));
        ext := ext.(history := ext.history.(selectedTransactionId := None));
        ext := ext.(history := ext.history.(displayedTransactions := map[]));
      }
    }

    /** The back-navigation hook of flow `f` for the step being left. */
    method ClearCurrentStepData(f: Navigation.Flow, step: int)
      modifies this
      ensures Value() == Navigation.ClearCurrentStepData(f, old(Value()), step)
    {
      if f == Navigation.AddTransactionFlow && ext.AddTransactionFields? {
        if step == Add.StepTransactionType {
          ext := ext.(add := ext.add.(transactionType := None));
        } else if step == Add.StepCategory {
          ext := ext.(add := ext.add.(transactionCategory := None));
          ext := ext.(add := ext.add.(categoryPage := 0));
        } else if step == Add.StepAmount {
          ext := ext.(add := ext.add.(transactionAmount := None));
        } else if step == Add.StepDescription {
          ext := ext.(add := ext.add.(transactionDescription := None));
        }
      } else if f == Navigation.TransactionHistoryFlow && ext.TransactionHistoryFields? {
        if step == History.StepTransactionList {
          ext := ext.(history := ext.history.(transactionPage := 0));
          ext := ext.(history := ext.history.(displayedTransactions := map[]));
        } else if step == History.StepTransactionDetail {
          ext := ext.(history := ext.history.(selectedTransactionId := None));
        }
      }
    }

    /** The control tokens of flow `f` at `step`: "##", and "#" at the first step, return
        to the main menu at step 0 and clear the flow's data; "#" later steps back and
        clears the data of the step left; other input changes nothing. */
    method HandleNavigation(f: Navigation.Flow, input: string, step: int)
      modifies this
      ensures Value() == Navigation.HandleNavigation(f, input, old(Value()), step)
    {
      var token := Trim(input);
      if token == Navigation.MainMenuCommand {
        currentMenu := MenuText(MainMenu);
        currentStep := 0;
        ClearTransactionData(f);
        return;
      }
      if token == Navigation.BackCommand {
        if Navigation.IsFirstStep(step) {
          currentMenu := MenuText(MainMenu);
          currentStep := 0;
          ClearTransactionData(f);
        } else {
          currentStep := Navigation.GetPreviousStep(step);
          ClearCurrentStepData(f, step);
        }
      }
    }

    /** The top menu's answer sets the menu it picks and rewinds the step. */
    method SelectMenu(input: string)
      modifies this
      ensures Value() == old(Value()).(currentMenu := MenuText(MainMenuFlow.SelectedMenu(Trim(input))), currentStep := 0)
    {
      var token := Trim(input);
      if token == "1" {
        currentMenu := MenuText(AddTransaction);
      } else if token == "2" {
        currentMenu := MenuText(TransactionHistory);
      } else if token == "3" {
        currentMenu := MenuText(AccountBalance);
      } else {
        currentMenu := MenuText(MainMenu);
      }
      currentStep := 0;
    }

    /** Records the display number of each shown row against its id, keeping all other
        entries of the cache. */
    method CacheDisplayedTransactions(rows: seq<Transaction>)
      requires ext.TransactionHistoryFields?
      modifies this
      ensures ext.TransactionHistoryFields?
      ensures Value() == old(Value()).(ext := TransactionHistoryFields(old(ext.history).(
        displayedTransactions := History.CacheDisplayedTransactions(rows, old(ext.history.transactionPage), old(ext.history.displayedTransactions)))))
    {
      var page := ext.history.transactionPage;
      ghost var cache := ext.history.displayedTransactions;
      for i := 0 to |rows|
        invariant ext.TransactionHistoryFields?
        invariant Value() == old(Value()).(ext := TransactionHistoryFields(old(ext.history).(displayedTransactions := ext.history.displayedTransactions)))
        invariant CachedUpTo(ext.history.displayedTransactions, rows, page, cache, i)
      {
        var displayNumber := History.DisplayNumber(page, i);
        ext := ext.(history := ext.history.(displayedTransactions := ext.history.displayedTransactions[displayNumber := rows[i].id]));
      }
      CachedRowsDetermineTheCache(ext.history.displayedTransactions, rows, page, cache);
    }
  }

  /** `d` is `cache` after recording the first `n` rows of `rows` shown on `page`. */
  predicate CachedUpTo(d: map<int, string>, rows: seq<Transaction>, page: int, cache: map<int, string>, n: nat)
    requires n <= |rows|
  {
    && (forall j :: 0 <= j < n ==> History.DisplayNumber(page, j) in d && d[History.DisplayNumber(page, j)] == rows[j].id)
    && (forall k :: k in cache ==> k in d)
    && (forall k :: k in cache && !(History.DisplayNumber(page, 0) <= k < History.DisplayNumber(page, n)) ==> d[k] == cache[k])
    && (forall k :: k in d ==> k in cache || History.DisplayNumber(page, 0) <= k < History.DisplayNumber(page, n))
  }

  /** Recording every row determines the cache: it is the one the value model computes. */
  lemma CachedRowsDetermineTheCache(d: map<int, string>, rows: seq<Transaction>, page: int, cache: map<int, string>)
    requires CachedUpTo(d, rows, page, cache, |rows|)
    ensures d == History.CacheDisplayedTransactions(rows, page, cache)
  {
    var e := History.CacheDisplayedTransactions(rows, page, cache);
    forall k | History.DisplayNumber(page, 0) <= k < History.DisplayNumber(page, |rows|)
      ensures k in d && k in e && d[k] == e[k]
    {
      var j := k - History.DisplayNumber(page, 0);
      assert k == History.DisplayNumber(page, j);
    }
    assert forall k :: k in d <==> k in e;
  }

  /** The picker lines of `page`, built by appending one line per category index; a
      negative page gives `None`, since its first iteration reads the label list at a
      negative index and throws. */
  method BuildCategoryListForPage(page: int) returns (r: Option<string>)
    ensures r == Add.CategoryPageLines(page)
  {
    var startIndex := page * Add.CategoriesPerPage;
    var endIndex := Min(startIndex + Add.CategoriesPerPage, |Add.Categories|);
    assert startIndex == Add.PageStart(page) && endIndex == Add.PageEnd(page);
    if startIndex < 0 {
      return None;
    }
    var list := "";
    var i := startIndex;
    while i < endIndex
      invariant startIndex <= i
      invariant startIndex < endIndex ==> i <= endIndex && list + Add.CategoryLines(Add.Categories, i, endIndex) == Add.CategoryLines(Add.Categories, startIndex, endIndex)
      invariant startIndex >= endIndex ==> list == ""
    {
      var line := IntToString(i + 1) + ". " + Add.Categories[i] + "\n";
      assert line == Add.CategoryLine(Add.Categories, i);
      CategoryLinesStep(Add.Categories, list, i, endIndex);
      list := list + line;
      i := i + 1;
    }
    assert startIndex < endIndex ==> i == endIndex && list + Add.CategoryLines(Add.Categories, i, endIndex) == list;
    r := Some(list);
  }

  /** One more picker line moves from the text still to build to the text built. */
  lemma CategoryLinesStep(labels: seq<string>, built: string, i: nat, hi: nat)
    requires i < hi <= |labels|
    ensures (built + Add.CategoryLine(labels, i)) + Add.CategoryLines(labels, i + 1, hi) == built + Add.CategoryLines(labels, i, hi)
  {
    var line, rest := Add.CategoryLine(labels, i), Add.CategoryLines(labels, i + 1, hi);
    assert Add.CategoryLines(labels, i, hi) == line + rest;
    assert (built + line) + rest == built + (line + rest);
  }

  /** The numbered rows of a listing page, built by appending one row at a time with a
      line break between rows. */
  method BuildTransactionListForPage(rows: seq<Transaction>, currentPage: int) returns (list: string)
    ensures list == History.ListPieces(rows, currentPage, |rows|)
  {
    list := "";
    var startIndex := currentPage * History.TransactionsPerPage;
    for i := 0 to |rows|
      invariant list == History.ListPieces(rows, currentPage, i)
    {
      var displayNumber := startIndex + i + 1;
      var line := IntToString(displayNumber) + ". " + rows[i].txType + ": $" + FormatFixed2(rows[i].amount);
      list := list + line;
      if i < |rows| - 1 {
        list := list + "\n";
      }
      assert list == History.ListPieces(rows, currentPage, i + 1) by {
        assert displayNumber == History.DisplayNumber(currentPage, i);
        assert line == History.RowLine(rows, currentPage, i);
        ListPiecesStep(rows, currentPage, i);
      }
    }
  }

  /** The listing loop's next iteration appends the row's line, then a line break unless
      it is the last row. */
  lemma ListPiecesStep(rows: seq<Transaction>, page: int, i: nat)
    requires i < |rows|
    ensures var built := History.ListPieces(rows, page, i) + History.RowLine(rows, page, i);
      History.ListPieces(rows, page, i + 1) == if i < |rows| - 1 then built + "\n" else built
  {
    var before, line := History.ListPieces(rows, page, i), History.RowLine(rows, page, i);
    if i < |rows| - 1 {
      assert before + (line + "\n") == (before + line) + "\n";
    }
  }
}
