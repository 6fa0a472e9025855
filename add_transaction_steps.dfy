/** The fixed parts of the add-transaction flow: its step numbering, messages and prompts,
    the paginated category picker, the confirmation summary, and the two clear hooks the
    shared navigation invokes. */
module AddTransactionSteps {
  import opened Wrappers
  import opened IntMath
  import opened Text
  import opened UssdModels

  /** The ten category labels, in display order. */
  const Categories: seq<string> := ["salary", "food", "rent", "utilities", "transportation",
                                     "entertainment", "shopping", "healthcare", "education", "other"]

  const CategoriesPerPage: int := 5
  const NextPageCommand: string := "*"
  const PreviousPageCommand: string := "**"

  /** Step numbers: the position of each step in the step order. */
  const StepTransactionType: int := 0
  const StepCategory: int := 1
  const StepAmount: int := 2
  const StepDescription: int := 3
  const StepConfirmation: int := 4
  const TotalSteps: int := 5

  const InvalidTransactionType: string := "Invalid option. Please enter 1 for Income or 2 for Expense:"
  const InvalidAmount: string := "Invalid amount. Please enter a positive number:"
  const EmptyDescription: string := "Description cannot be empty. Please enter a description:"
  const TransactionCreationFailed: string := "Error creating transaction.\n\nPlease try again later."

  /** The number of category pages: the ceiling of 10 / 5. */
  function GetTotalPages(): (r: int)
    ensures (r - 1) * CategoriesPerPage < |Categories| <= r * CategoriesPerPage
  {
    CeilDiv(|Categories|, CategoriesPerPage)
  }

  /** One picker line: the continuous 1-based number, then the label. */
  function CategoryLine(labels: seq<string>, i: nat): string
    requires i < |labels|
  {
    IntToString(i + 1) + ". " + labels[i] + "\n"
  }

  /** The picker lines for the label indices lo, ..., hi - 1. */
  function CategoryLines(labels: seq<string>, lo: nat, hi: nat): string
    requires hi <= |labels|
    decreases hi - lo
  {
    if lo >= hi then "" else CategoryLine(labels, lo) + CategoryLines(labels, lo + 1, hi)
  }

  /** The first category index a page shows. */
  function PageStart(page: int): int { page * CategoriesPerPage }

  /** One past the last category index a page shows. */
  function PageEnd(page: int): int { Min(PageStart(page) + CategoriesPerPage, |Categories|) }

  /** The lines of one page, or `None` for a negative page, whose first loop iteration
      reads the label list at a negative index and throws. */
  function CategoryPageLines(page: int): (r: Option<string>)
    ensures r.None? <==> page < 0
  {
    if PageStart(page) < 0 then None
    else if PageStart(page) >= PageEnd(page) then Some("")
    else Some(CategoryLines(Categories, PageStart(page), PageEnd(page)))
  }

  /** The "* Next page" / "** Previous page" lines, present only when there is more
      than one page. */
  function GetPaginationIndicators(page: int): string
  {
    var totalPages := GetTotalPages();
    if totalPages <= 1 then ""
    else
      TrimEnd((if page < totalPages - 1 then NextPageCommand + " Next page\n" else "")
              + (if page > 0 then PreviousPageCommand + " Previous page\n" else ""))
  }

  /** The picker body for a page: its lines followed by the page indicators. */
  function GetCategoryList(page: int): (r: Option<string>)
    ensures r.None? <==> page < 0
  {
    match CategoryPageLines(page)
    case None => None
    case Some(list) =>
      var indicators := GetPaginationIndicators(page);
      if indicators == "" then Some(TrimEnd(list)) else Some(TrimEnd(list + "\n" + indicators))
  }

  function GetCategoryPrompt(page: int): (r: Option<string>)
    ensures r.None? <==> page < 0
  {
    match GetCategoryList(page)
    case None => None
    case Some(list) => Some("Enter category:\n" + list)
  }

  const TransactionTypePrompt: string := "Select transaction type:\n1. Income\n2. Expense"
  const AmountPrompt: string := "Enter amount:"
  const DescriptionPrompt: string := "Enter description:"
  const ConfirmationPrompt: string := "Transaction Confirmation:"

  /** The prompt of an in-range step; the category step shows its first page. */
  function GetPromptForStepInternal(step: int): string
    requires 0 <= step < TotalSteps
  {
    if step == StepTransactionType then TransactionTypePrompt
    else if step == StepCategory then GetCategoryPrompt(0).value
    else if step == StepAmount then AmountPrompt
    else if step == StepDescription then DescriptionPrompt
    else ConfirmationPrompt
  }

  /** `int.TryParse` of the trimmed input, then a 1-based index into the labels. */
  function TryParseCategorySelection(input: string): (r: Option<string>)
    ensures r.Some? <==> (ParseInt(input).Some? && 1 <= ParseInt(input).value <= |Categories|)
    ensures r.Some? ==> r.value == Categories[ParseInt(input).value - 1]
  {
    match ParseInt(input)
    case None => None
    case Some(n) => if n < 1 || n > |Categories| then None else Some(Categories[n - 1])
  }

  /** The picker shows category i under the number i + 1 on page i / 5, and typing that
      number selects category i from any page: selection does not depend on the page. */
  lemma ShownNumberSelectsShownCategory(i: nat)
    requires i < |Categories|
    ensures 0 <= i / CategoriesPerPage < GetTotalPages()
    ensures PageStart(i / CategoriesPerPage) <= i < PageEnd(i / CategoriesPerPage)
    ensures TryParseCategorySelection(IntToString(i + 1)) == Some(Categories[i])
  {
    var p := i / CategoriesPerPage;
    if p >= GetTotalPages() {
      MulMonotone(GetTotalPages(), p, CategoriesPerPage);
    }
    ParseIntOfIntToString(i + 1);
  }

  /** The summary of a created record. */
  function FormatTransactionConfirmation(t: Transaction): string
  {
    VisualDivider + "\nType: " + t.txType + "\nCategory: " + t.category
    + "\nAmount: $" + FormatFixed2(t.amount) + "\nDescription: " + t.description
  }

  const EmptyAddTransactionData: AddTransactionData := AddTransactionData(None, None, None, None, 0)

  /** Back-navigation hook: forgets what the given step collected (the category step also
      rewinds the picker). A state of another shape, or an out-of-range step, is unchanged. */
  function ClearCurrentStepData(st: UssdState, step: int): (r: UssdState)
    ensures r.ext.AddTransactionFields? <==> st.ext.AddTransactionFields?
    ensures r == st.(ext := r.ext)
    ensures st.ext.AddTransactionFields? ==>
      var (a, b) := (st.ext.add, r.ext.add);
      && b.transactionType == (if step == StepTransactionType then None else a.transactionType)
      && b.transactionCategory == (if step == StepCategory then None else a.transactionCategory)
      && b.transactionAmount == (if step == StepAmount then None else a.transactionAmount)
      && b.transactionDescription == (if step == StepDescription then None else a.transactionDescription)
      && b.categoryPage == (if step == StepCategory then 0 else a.categoryPage)
    ensures !st.ext.AddTransactionFields? ==> r == st
  {
    match st.ext
    case AddTransactionFields(a) =>
      if step < 0 || step >= TotalSteps then st
      else
        var b :=
          if step == StepTransactionType then a.(transactionType := None)
          else if step == StepCategory then a.(transactionCategory := None, categoryPage := 0)
          else if step == StepAmount then a.(transactionAmount := None)
          else if step == StepDescription then a.(transactionDescription := None)
          else a;
        st.(ext := AddTransactionFields(b))
    case _ => st
  }

  /** Completion and jump-to-top hook: forgets all four entries and rewinds the picker. */
  function ClearTransactionData(st: UssdState): (r: UssdState)
    ensures st.ext.AddTransactionFields? ==> r == st.(ext := AddTransactionFields(EmptyAddTransactionData))
    ensures !st.ext.AddTransactionFields? ==> r == st
  {
    if st.ext.AddTransactionFields? then st.(ext := AddTransactionFields(EmptyAddTransactionData)) else st
  }
}
