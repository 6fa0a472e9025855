/** The fixed parts of the transaction-history flow: step numbering, messages, the
    numbered listing with its page indicators, the row-number cache, selection parsing,
    the detail summary, and the two clear hooks. */
module TransactionHistorySteps {
  import opened Wrappers
  import opened IntMath
  import opened Text
  import opened UssdModels

  const TransactionsPerPage: int := 5
  const NextPageCommand: string := "*"
  const PreviousPageCommand: string := "**"

  const StepTransactionList: int := 0
  const StepTransactionDetail: int := 1
  const TotalSteps: int := 2

  const TransactionNotFound: string := "Transaction not found." + ThankYou
  const TransactionNotFoundWithHistory: string := "Transaction not found."
  const TransactionLoadError: string := "Error loading transaction details.\n\nPlease try again later."
  const AlreadyOnLastPage: string := "Already on last page."
  const AlreadyOnFirstPage: string := "Already on first page."
  const InvalidOption: string := "Invalid option."
  const NoTransactionsFound: string := "No transactions found."

  const TransactionListPrompt: string := "Transaction History:"
  const TransactionDetailPrompt: string := "Transaction Details:"

  function GetPromptForStepInternal(step: int): string
    requires 0 <= step < TotalSteps
  {
    if step == StepTransactionList then TransactionListPrompt else TransactionDetailPrompt
  }

  /** The number of listing pages for a total: the ceiling of totalCount / 5. */
  function GetTotalPages(totalCount: int): (r: int)
    ensures (r - 1) * TransactionsPerPage < totalCount <= r * TransactionsPerPage
  {
    CeilDiv(totalCount, TransactionsPerPage)
  }

  /** The listing query for the state's 0-based page: newest first, five rows, and the
      1-based page that holds exactly the rows shown under the page's display numbers (row
      k of the ordering lies on page k / size + 1). A negative state page asks for a page
      before the first. */
  function ListQuery(page: int): (f: TransactionFilters)
    ensures f.pageSize == TransactionsPerPage && f.sortDescending
    ensures f.page >= 1 <==> page >= 0
    ensures forall i :: 0 <= i < f.pageSize ==> (DisplayNumber(page, i) - 1) / f.pageSize + 1 == f.page
  {
    TransactionFilters(page + 1, TransactionsPerPage, true)
  }

  /** The number under which row i of the given page is shown and cached. */
  function DisplayNumber(page: int, i: int): int { page * TransactionsPerPage + i + 1 }

  /** A lookup by id; a missing or blank id finds nothing without asking the service. */
  function LoadTransactionById(svc: TransactionService, id: Option<string>): (r: Lookup)
    ensures (id.None? || IsBlank(id.value)) ==> r == NotFound
  {
    if id.None? || IsBlank(id.value) then NotFound else svc.getTransactionById(id.value)
  }

  /** The line of row i: its continuous number, its type and its amount. */
  function RowLine(rows: seq<Transaction>, page: int, i: nat): string
    requires i < |rows|
  {
    IntToString(DisplayNumber(page, i)) + ". " + rows[i].txType + ": $" + FormatFixed2(rows[i].amount)
  }

  /** The piece the listing loop appends for row i: its line, then a line break unless it
      is the last row. */
  function ListPiece(rows: seq<Transaction>, page: int, i: nat): string
    requires i < |rows|
  {
    if i < |rows| - 1 then RowLine(rows, page, i) + "\n" else RowLine(rows, page, i)
  }

  /** The text the listing loop has built after its first n iterations. */
  function ListPieces(rows: seq<Transaction>, page: int, n: nat): string
    requires n <= |rows|
  {
    if n == 0 then "" else ListPieces(rows, page, n - 1) + ListPiece(rows, page, n - 1)
  }

  /** The pager lines (only when there is more than one page), always followed by "# Back". */
  function GetTransactionListPaginationIndicators(page: int, totalCount: int): string
  {
    var totalPages := GetTotalPages(totalCount);
    var paging :=
      if totalPages > 1 then
        (if page < totalPages - 1 then NextPageCommand + " Next page\n" else "")
        + (if page > 0 then PreviousPageCommand + " Previous page\n" else "")
      else "";
    TrimEnd(paging + "# Back")
  }

  /** The listing body: a notice for an empty page, otherwise the rows and the indicators. */
  function FormatTransactionList(rows: seq<Transaction>, page: int, totalCount: int): (r: string)
    ensures rows == [] <==> r == NoTransactionsFound
  {
    if |rows| == 0 then NoTransactionsFound
    else
      var list := ListPieces(rows, page, |rows|);
      var indicators := GetTransactionListPaginationIndicators(page, totalCount);
      var text := if indicators == "" then TrimEnd(list) else TrimEnd(list + "\n\n" + indicators);
      assert list != [] by {
        assert |RowLine(rows, page, |rows| - 1)| > 0;
      }
      text
  }

  /** The row-number cache after showing `rows` on `page`: each shown number now names its
      row's id, every other entry is kept, and nothing else is added. Entries of earlier
      pages stay. */
  function CacheDisplayedTransactions(rows: seq<Transaction>, page: int, cache: map<int, string>): (r: map<int, string>)
    ensures forall i :: 0 <= i < |rows| ==> DisplayNumber(page, i) in r && r[DisplayNumber(page, i)] == rows[i].id
    ensures forall k :: k in cache ==> k in r
    ensures forall k :: k in cache && !(DisplayNumber(page, 0) <= k < DisplayNumber(page, |rows|)) ==> r[k] == cache[k]
    ensures forall k :: k in r ==> k in cache || DisplayNumber(page, 0) <= k < DisplayNumber(page, |rows|)
  {
    var shown := map i | 0 <= i < |rows| :: DisplayNumber(page, i) := rows[i].id;
    assert forall i :: 0 <= i < |rows| ==> DisplayNumber(page, i) in shown && shown[DisplayNumber(page, i)] == rows[i].id;
    cache + shown
  }

  /** `int.TryParse` of the trimmed input, then a cache lookup. */
  function TryParseTransactionSelection(input: string, cache: map<int, string>): (r: Option<string>)
    ensures r.Some? <==> ParseInt(input).Some? && ParseInt(input).value in cache
    ensures r.Some? ==> r.value == cache[ParseInt(input).value]
  {
    match ParseInt(input)
    case None => None
    case Some(n) => if n in cache then Some(cache[n]) else None
  }

  /** The invalid-selection notice: the valid numbers in ascending order, when there are any. */
  function SelectionErrorMessage(cache: map<int, string>): string
  {
    if |cache| > 0 then InvalidOption + " Valid selections: " + JoinInts(SortedInts(cache.Keys), ", ")
    else InvalidOption
  }

  /** The full summary of one record. */
  function FormatTransactionDetail(t: Transaction): string
  {
    VisualDivider + "\nType: " + t.txType + "\nCategory: " + t.category
    + "\nAmount: $" + FormatFixed2(t.amount) + "\nDescription: " + t.description
    + "\nDate: " + t.createdAt
  }

  const EmptyTransactionHistoryData: TransactionHistoryData := TransactionHistoryData(0, None, map[])

  /** Back-navigation hook: leaving the list rewinds the pager and empties the cache;
      leaving the detail forgets the selection. Other shapes and steps are unchanged. */
  function ClearCurrentStepData(st: UssdState, step: int): (r: UssdState)
    ensures r.ext.TransactionHistoryFields? <==> st.ext.TransactionHistoryFields?
    ensures r == st.(ext := r.ext)
    ensures st.ext.TransactionHistoryFields? ==>
      var (h, g) := (st.ext.history, r.ext.history);
      && g.transactionPage == (if step == StepTransactionList then 0 else h.transactionPage)
      && g.displayedTransactions == (if step == StepTransactionList then map[] else h.displayedTransactions)
      && g.selectedTransactionId == (if step == StepTransactionDetail then None else h.selectedTransactionId)
    ensures !st.ext.TransactionHistoryFields? ==> r == st
  {
    match st.ext
    case TransactionHistoryFields(h) =>
      if step == StepTransactionList then
        st.(ext := TransactionHistoryFields(h.(transactionPage := 0, displayedTransactions := map[])))
      else if step == StepTransactionDetail then
        st.(ext := TransactionHistoryFields(h.(selectedTransactionId := None)))
      else st
    case _ => st
  }

  /** Completion and jump-to-top hook: rewinds the pager, forgets the selection and
      empties the cache. */
  function ClearTransactionData(st: UssdState): (r: UssdState)
    ensures st.ext.TransactionHistoryFields? ==> r == st.(ext := TransactionHistoryFields(EmptyTransactionHistoryData))
    ensures !st.ext.TransactionHistoryFields? ==> r == st
  {
    if st.ext.TransactionHistoryFields? then st.(ext := TransactionHistoryFields(EmptyTransactionHistoryData)) else st
  }
}
