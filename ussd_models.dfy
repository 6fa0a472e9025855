/** The values that flow through a USSD session: menu names, requests and responses,
    the per-caller session state in its three runtime shapes, the handler result, and
    the records and answers of the transaction service the handlers consult. */
module UssdModels {
  import opened Wrappers
  import opened IntMath

  /** The four menus of the application. */
  datatype UssdMenuName = MainMenu | AddTransaction | TransactionHistory | AccountBalance

  /** `ToString()` of a menu name: the identifier itself. */
  function MenuText(m: UssdMenuName): (r: string)
    ensures |r| >= 8
  {
    match m
    case MainMenu => "MainMenu"
    case AddTransaction => "AddTransaction"
    case TransactionHistory => "TransactionHistory"
    case AccountBalance => "AccountBalance"
  }

  /** The menu whose name is `s`, if any. */
  function MenuFromText(s: string): (r: Option<UssdMenuName>)
    ensures r.Some? ==> MenuText(r.value) == s
    ensures r.None? ==> forall m :: MenuText(m) != s
  {
    if s == "MainMenu" then Some(MainMenu)
    else if s == "AddTransaction" then Some(AddTransaction)
    else if s == "TransactionHistory" then Some(TransactionHistory)
    else if s == "AccountBalance" then Some(AccountBalance)
    else None
  }

  /** What the gateway shows the caller: `CON` keeps the session open, `END` closes it. */
  datatype UssdResponse = Continue(message: string) | End(message: string)
  {
    function Type(): string { if Continue? then "CON" else "END" }
  }

  /** One keypress round from the gateway. A missing `Input` is modelled as "". */
  datatype UssdRequest = UssdRequest(phoneNumber: string, input: string, sessionId: Option<string>)

  /** A stored financial record as the service returns it. `createdAt` is the record's
      timestamp already rendered in the `MMM dd, yyyy h:mm tt` pattern. */
  datatype Transaction = Transaction(id: string, txType: string, category: string, amount: real,
                                     description: string, createdAt: string)

  /** The `CreateTransaction` request; type and category may still be null when sent. */
  datatype NewTransaction = NewTransaction(txType: Option<string>, category: Option<string>,
                                           amount: real, description: string)

  /** The paging part of a listing query (sorted by creation time). */
  datatype TransactionFilters = TransactionFilters(page: int, pageSize: int, sortDescending: bool)

  /** A listing answer: the rows of the requested page and the total number of matches. */
  datatype ListedTransactions = ListedTransactions(transactions: seq<Transaction>, totalCount: int)

  datatype BalanceResult = BalanceResult(balance: real, totalIncome: real, totalExpense: real,
                                         transactionCount: int)

  /** The answer of a lookup by id: the record, no record, or a failure (an exception). */
  datatype Lookup = Found(transaction: Transaction) | NotFound | LookupFailed

  /** The transaction service as the handlers see it within one request. Each call's
      answer is a function of its argument; `None` stands for a call that threw. */
  datatype TransactionService = TransactionService(
    createTransaction: NewTransaction -> Option<Transaction>,
    getTransactionById: string -> Lookup,
    getAllTransactions: TransactionFilters -> Option<ListedTransactions>,
    calculateBalance: Option<BalanceResult>)

  /** The fields an `AddTransactionState` adds to the base state. */
  datatype AddTransactionData = AddTransactionData(
    transactionType: Option<string>, transactionCategory: Option<string>,
    transactionAmount: Option<real>, transactionDescription: Option<string>,
    categoryPage: int)

  /** The fields a `TransactionHistoryState` adds to the base state. */
  datatype TransactionHistoryData = TransactionHistoryData(
    transactionPage: int, selectedTransactionId: Option<string>,
    displayedTransactions: map<int, string>)

  /** The runtime type of the state object: the base class or one of its two subclasses,
      with the subclass's own fields. */
  datatype Extension =
    | Base
    | AddTransactionFields(add: AddTransactionData)
    | TransactionHistoryFields(history: TransactionHistoryData)

  /** The per-caller session state. Timestamps are opaque clock readings. */
  datatype UssdState = UssdState(
    phoneNumber: string, sessionId: Option<string>, currentMenu: string, currentStep: int,
    createdAt: int, lastUpdated: int, ext: Extension)

  /** The simple name of the state object's runtime type. */
  function TypeName(e: Extension): (r: string)
    ensures r == "UssdState" <==> e.Base?
  {
    match e
    case Base => "UssdState"
    case AddTransactionFields(_) => "AddTransactionState"
    case TransactionHistoryFields(_) => "TransactionHistoryState"
  }

  /** Two extensions of the same runtime type. */
  predicate SameShape(a: Extension, b: Extension)
  {
    a.Base? == b.Base? && a.AddTransactionFields? == b.AddTransactionFields?
    && a.TransactionHistoryFields? == b.TransactionHistoryFields?
  }

  predicate AtMenu(st: UssdState, m: UssdMenuName) { st.currentMenu == MenuText(m) }

  /** What a handler hands back: the response and the state object to persist. */
  datatype UssdHandlerResult = UssdHandlerResult(response: UssdResponse, updatedState: UssdState)

  /** The outcome of a routine that may throw: its result, or the state object as it
      stood when the exception left the routine. */
  datatype Outcome = Done(result: UssdHandlerResult) | Raised(at: UssdState)

  const ThankYou: string := "\n\nThank you for using Expenses App!"

  const GenericError: string := "An error occurred. Please dial again to restart." + ThankYou

  /** The line of 21 box-drawing characters that heads every summary. */
  const VisualDivider: string := "─────────────────────"
}
