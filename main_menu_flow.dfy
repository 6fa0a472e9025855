/** The main-menu router: the welcome menu, the choice of a flow, and the hand-off of every
    other request to the flow the session is in, with an immediate return to the welcome
    menu when that flow exits to the main menu.

    Two versions of the entry point are given. `HandleAsyncAsWritten` follows the routing
    of the source literally, including its fallback for a menu name it does not know: the
    router hands the request back to the main-menu handler itself, which is not at the main
    menu and so routes again, without end. Its recursion is bounded by a `fuel` count and an
    exhausted count is reported as `Unfinished`. `HandleAsync` is the router the rest of the
    model uses: an unknown menu name is read as the main menu, which the fallback evidently
    meant. */
module MainMenuFlow {
  import opened Wrappers
  import opened Text
  import opened UssdModels
  import AddTransactionFlow
  import TransactionHistoryFlow
  import AccountBalanceFlow

  const WelcomeMenu: string :=
    "Welcome to Expenses App\n\n" + "1. Add transaction\n" + "2. Transaction history\n"
    + "3. Account balance\n\n" + "Select an option:"

  const InvalidMenuOption: string := "Invalid option. Please select 1, 2, or 3:"

  /** The menu a trimmed top-menu answer picks: "1", "2" and "3" pick the three flows, any
      other answer the main menu itself. */
  function SelectedMenu(token: string): (m: UssdMenuName)
    ensures m == AddTransaction <==> token == "1"
    ensures m == TransactionHistory <==> token == "2"
    ensures m == AccountBalance <==> token == "3"
  {
    if token == "1" then AddTransaction
    else if token == "2" then TransactionHistory
    else if token == "3" then AccountBalance
    else MainMenu
  }

  /** The same caller and session with no input: what a flow receives when it is entered
      from the menu, and what the router re-runs with after a flow exits to it. */
  function EmptyInput(req: UssdRequest): UssdRequest
  {
    req.(input := "")
  }

  /** The handler of a flow menu. */
  function RouteToHandler(svc: TransactionService, req: UssdRequest, st: UssdState, m: UssdMenuName): UssdHandlerResult
    requires m != MainMenu
  {
    if m == AddTransaction then AddTransactionFlow.HandleAsync(svc, req, st)
    else if m == TransactionHistory then TransactionHistoryFlow.HandleAsync(svc, req, st)
    else AccountBalanceFlow.HandleAsync(svc, req, st)
  }

  /** The top menu: blank input shows the welcome menu with the state unchanged; an answer
      sets the menu it picks and rewinds the step, then either reports an invalid option or
      enters the chosen flow with empty input. */
  function MainMenuLogic(svc: TransactionService, req: UssdRequest, st: UssdState): UssdHandlerResult
  {
    if IsBlank(req.input) then UssdHandlerResult(Continue(WelcomeMenu), st)
    else
      var m := SelectedMenu(Trim(req.input));
      var s := st.(currentMenu := MenuText(m), currentStep := 0);
      if m == MainMenu then UssdHandlerResult(Continue(InvalidMenuOption), s)
      else RouteToHandler(svc, EmptyInput(req), s, m)
  }

  /** The router. A session in one of the three flows is handed to that flow with the
      request as it came; when the flow leaves the session at the main menu the top menu
      runs at once with empty input (the source re-enters this entry point, which at the
      main menu is the top menu). Any other session, including one whose menu name is not
      one of the four, gets the top menu. The source's catch-all for exceptions has nothing
      to catch here: every flow catches its own. */
  function HandleAsync(svc: TransactionService, req: UssdRequest, st: UssdState): UssdHandlerResult
  {
    var known := MenuFromText(st.currentMenu);
    if known.Some? && known.value != MainMenu then
      var result := RouteToHandler(svc, req, st, known.value);
      if AtMenu(result.updatedState, MainMenu) then MainMenuLogic(svc, EmptyInput(req), result.updatedState)
      else result
    else MainMenuLogic(svc, req, st.(currentMenu := MenuText(MainMenu)))
  }

  /** A run of the literal router: its result, or `Unfinished` when the bound on nested
      calls ran out first. */
  datatype Run = Finished(result: UssdHandlerResult) | Unfinished

  /** The entry point as the source writes it, with at most `fuel` nested calls of itself. */
  function HandleAsyncAsWritten(svc: TransactionService, req: UssdRequest, st: UssdState, fuel: nat): Run
    decreases fuel, 0
  {
    if fuel == 0 then Unfinished
    else if st.currentMenu != MenuText(MainMenu) then
      match RouteToHandlerAsWritten(svc, req, st, fuel - 1)
      case Unfinished => Unfinished
      case Finished(result) =>
        if AtMenu(result.updatedState, MainMenu) then HandleAsyncAsWritten(svc, EmptyInput(req), result.updatedState, fuel - 1)
        else Finished(result)
    else if IsBlank(req.input) then Finished(UssdHandlerResult(Continue(WelcomeMenu), st))
    else
      var s := st.(currentMenu := MenuText(SelectedMenu(Trim(req.input))), currentStep := 0);
      if s.currentMenu == MenuText(MainMenu) then Finished(UssdHandlerResult(Continue(InvalidMenuOption), s))
      else RouteToHandlerAsWritten(svc, EmptyInput(req), s, fuel - 1)
  }

  /** The handler choice as the source writes it: the flow whose name the menu is, and the
      main-menu handler itself for any other name. */
  function RouteToHandlerAsWritten(svc: TransactionService, req: UssdRequest, st: UssdState, fuel: nat): Run
    decreases fuel, 1
  {
    match MenuFromText(st.currentMenu)
    case Some(m) =>
      if m != MainMenu then Finished(RouteToHandler(svc, req, st, m)) else HandleAsyncAsWritten(svc, req, st, fuel)
    case None => HandleAsyncAsWritten(svc, req, st, fuel)
  }
}
