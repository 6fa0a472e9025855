/** The fixed parts of the account-balance flow: its single step, messages and summary. */
module AccountBalanceSteps {
  import opened Text
  import opened UssdModels

  const StepBalanceDisplay: int := 0
  const TotalSteps: int := 1

  const BalanceLoadError: string := "Error loading account balance.\n\nPlease try again later."
  const BalanceDisplayPrompt: string := "Account Balance:"

  function GetPromptForStepInternal(step: int): string
    requires 0 <= step < TotalSteps
  {
    BalanceDisplayPrompt
  }

  /** The balance summary: balance, income and expense totals, and the record count. */
  function FormatBalanceDisplay(b: BalanceResult): string
  {
    VisualDivider + "\nCurrent Balance: $" + FormatFixed2(b.balance)
    + "\nTotal Income: $" + FormatFixed2(b.totalIncome)
    + "\nTotal Expense: $" + FormatFixed2(b.totalExpense)
    + "\nTransactions: " + IntToString(b.transactionCount)
  }
}
