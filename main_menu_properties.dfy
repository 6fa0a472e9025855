/** What the main-menu router guarantees: the top menu's three answers, the return to the
    welcome menu when a flow exits, the session invariant kept across all flows, and the
    comparison of the literal router with the one the model uses. */
module MainMenuProperties {
  import opened Wrappers
  import opened Text
  import opened UssdModels
  import opened MainMenuFlow
  import AddTransactionSteps
  import AddTransactionFlow
  import AP = AddTransactionProperties
  import TransactionHistoryFlow
  import HP = TransactionHistoryProperties
  import AccountBalanceFlow
  import BP = AccountBalanceProperties

  /** The four menu names are pairwise different. */
  lemma MenuTextInjective(a: UssdMenuName, b: UssdMenuName)
    ensures MenuText(a) == MenuText(b) <==> a == b
  {
    var x := MenuText(a);
    var y := MenuText(b);
    if a != b {
      assert |x| != |y| || x[1] != y[1];
    }
  }

  /** The top menu's answers: blank input shows the welcome menu and changes nothing; "1",
      "2" and "3" enter the chosen flow at step 0 with empty input; any other answer is an
      invalid option that keeps the session at the main menu, at step 0. */
  lemma TopMenuAnswers(svc: TransactionService, req: UssdRequest, st: UssdState)
    requires AtMenu(st, MainMenu)
    ensures var r := HandleAsync(svc, req, st);
      var token := Trim(req.input);
      var s := st.(currentStep := 0);
      && (IsBlank(req.input) ==> r == UssdHandlerResult(Continue(WelcomeMenu), st))
      && (!IsBlank(req.input) && token == "1" ==>
            r == AddTransactionFlow.HandleAsync(svc, EmptyInput(req), s.(currentMenu := MenuText(AddTransaction))))
      && (!IsBlank(req.input) && token == "2" ==>
            r == TransactionHistoryFlow.HandleAsync(svc, EmptyInput(req), s.(currentMenu := MenuText(TransactionHistory))))
      && (!IsBlank(req.input) && token == "3" ==>
            r == AccountBalanceFlow.HandleAsync(svc, EmptyInput(req), s.(currentMenu := MenuText(AccountBalance))))
      && (!IsBlank(req.input) && token != "1" && token != "2" && token != "3" ==>
            r == UssdHandlerResult(Continue(InvalidMenuOption), s))
  {
    assert MenuFromText(st.currentMenu) == Some(MainMenu);
  }

  /** A session in a flow is handed to that flow with the request unchanged; the flow's
      answer is returned as it is, unless the flow left the session at the main menu, in
      which case the caller sees the welcome menu in the same round. */
  lemma FlowAnswers(svc: TransactionService, req: UssdRequest, st: UssdState, m: UssdMenuName)
    requires m != MainMenu && AtMenu(st, m)
    ensures var inner := RouteToHandler(svc, req, st, m);
      var r := HandleAsync(svc, req, st);
      && (!AtMenu(inner.updatedState, MainMenu) ==> r == inner)
      && (AtMenu(inner.updatedState, MainMenu) ==> r == UssdHandlerResult(Continue(WelcomeMenu), inner.updatedState))
  {
    MenuTextInjective(m, MainMenu);
    assert MenuFromText(st.currentMenu) == Some(m) by {
      var k := MenuFromText(st.currentMenu);
      MenuTextInjective(k.value, m);
    }
  }

  /** A menu name outside the four is read as the main menu. */
  lemma UnknownMenuIsMainMenu(svc: TransactionService, req: UssdRequest, st: UssdState)
    requires MenuFromText(st.currentMenu).None?
    ensures HandleAsync(svc, req, st) == HandleAsync(svc, req, st.(currentMenu := MenuText(MainMenu)))
  {
  }

  /** What the router may find in the store between requests: the main menu, or a flow at a
      step where it waits for input, with the paging fields of whatever shape the state has
      in range. */
  predicate WellFormedSession(st: UssdState)
  {
    && (st.ext.AddTransactionFields? ==> 0 <= st.ext.add.categoryPage < AddTransactionSteps.GetTotalPages())
    && (st.ext.TransactionHistoryFields? ==> st.ext.history.transactionPage >= 0)
    && (|| AtMenu(st, MainMenu)
        || AP.ValidAddSession(st)
        || HP.ValidHistorySession(st)
        || (AtMenu(st, AccountBalance) && st.currentStep == 0))
  }

  /** The flow answer at a flow menu is sound in the sense the router needs: a session left
      at the main menu always comes with a `CON`, and a `CON` leaves the session well formed. */
  predicate SoundFlowAnswer(r: UssdHandlerResult)
  {
    && (AtMenu(r.updatedState, MainMenu) ==> r.response.Continue?)
    && (r.response.Continue? ==> WellFormedSession(r.updatedState))
  }

  lemma AddFlowIsSound(svc: TransactionService, req: UssdRequest, st: UssdState)
    requires AP.ValidAddSession(st)
    ensures SoundFlowAnswer(AddTransactionFlow.HandleAsync(svc, req, st))
  {
    AP.HandleAsyncKeepsSessionValid(svc, req, st);
  }

  lemma HistoryFlowIsSound(svc: TransactionService, req: UssdRequest, st: UssdState)
    requires HP.ValidHistorySession(st)
    ensures SoundFlowAnswer(TransactionHistoryFlow.HandleAsync(svc, req, st))
  {
    HP.HandleAsyncKeepsSessionValid(svc, req, st);
  }

  lemma BalanceFlowIsSound(svc: TransactionService, req: UssdRequest, st: UssdState)
    requires WellFormedSession(st) && AtMenu(st, AccountBalance) && st.currentStep == 0
    ensures SoundFlowAnswer(AccountBalanceFlow.HandleAsync(svc, req, st))
  {
    BP.BalanceStepOutcomes(svc, req, st);
    MenuTextInjective(AccountBalance, MainMenu);
  }

  /** Entering a flow from the top menu is sound. */
  lemma EnteringAFlowIsSound(svc: TransactionService, req: UssdRequest, st: UssdState, m: UssdMenuName)
    requires WellFormedSession(st) && m != MainMenu
    ensures SoundFlowAnswer(RouteToHandler(svc, EmptyInput(req), st.(currentMenu := MenuText(m), currentStep := 0), m))
  {
    var s := st.(currentMenu := MenuText(m), currentStep := 0);
    if m == AddTransaction {
      AddFlowIsSound(svc, EmptyInput(req), s);
    } else if m == TransactionHistory {
      HistoryFlowIsSound(svc, EmptyInput(req), s);
    } else {
      BalanceFlowIsSound(svc, EmptyInput(req), s);
    }
  }

  /** The top menu is sound on a well-formed session at the main menu. */
  lemma TopMenuIsSound(svc: TransactionService, req: UssdRequest, st: UssdState)
    requires WellFormedSession(st) && AtMenu(st, MainMenu)
    ensures var r := MainMenuLogic(svc, req, st);
      r.response.Continue? ==> WellFormedSession(r.updatedState)
  {
    if !IsBlank(req.input) {
      var m := SelectedMenu(Trim(req.input));
      if m != MainMenu {
        EnteringAFlowIsSound(svc, req, st, m);
      }
    }
  }

  /** The router keeps the stored session well formed: from a well-formed session every
      `CON` answer, the only kind that is stored, leaves a well-formed session. So a stored
      session is never at the add flow's confirmation step, never at the history detail
      step, never on a picker page out of range, and never under a menu name outside the
      four. */
  lemma {:induction false} SessionsStayWellFormed(svc: TransactionService, req: UssdRequest, st: UssdState)
    requires WellFormedSession(st)
    ensures var r := HandleAsync(svc, req, st);
      r.response.Continue? ==> WellFormedSession(r.updatedState)
  {
    var known := MenuFromText(st.currentMenu);
    if known.Some? && known.value != MainMenu {
      var m := known.value;
      MenuTextInjective(m, AddTransaction);
      MenuTextInjective(m, TransactionHistory);
      var inner := RouteToHandler(svc, req, st, m);
      if m == AddTransaction {
        AddFlowIsSound(svc, req, st);
      } else if m == TransactionHistory {
        HistoryFlowIsSound(svc, req, st);
      } else {
        BalanceFlowIsSound(svc, req, st);
      }
      if AtMenu(inner.updatedState, MainMenu) {
        TopMenuIsSound(svc, EmptyInput(req), inner.updatedState);
      }
    } else {
      TopMenuIsSound(svc, req, st.(currentMenu := MenuText(MainMenu)));
    }
  }

  /** A blank request that gets a `CON` can be delivered again: handled once more on the
      session it left (with the session id or the timestamp restamped), it gets the same
      answer and leaves the same session. At the main menu blank input shows the welcome
      menu; in the add and history flows it re-prompts or reloads the same page; in the
      balance flow it always ends the session. */
  lemma BlankInputIsIdempotent(svc: TransactionService, req: UssdRequest, st: UssdState, sid: Option<string>, t: int)
    requires WellFormedSession(st) && IsBlank(req.input)
    ensures var r := HandleAsync(svc, req, st);
      var u := r.updatedState.(sessionId := sid, lastUpdated := t);
      r.response.Continue? ==> HandleAsync(svc, req, u) == r.(updatedState := u)
  {
    var known := MenuFromText(st.currentMenu);
    if known.Some? && known.value != MainMenu {
      var m := known.value;
      MenuTextInjective(m, MainMenu);
      MenuTextInjective(m, AddTransaction);
      MenuTextInjective(m, TransactionHistory);
      var inner := RouteToHandler(svc, req, st, m);
      if m == AddTransaction {
        AP.BlankInputRepeats(svc, req, st, sid, t);
      } else if m == TransactionHistory {
        HP.BlankInputRepeats(svc, req, st, sid, t);
      } else {
        BP.BalanceStepOutcomes(svc, req, st);
      }
      var u := inner.updatedState.(sessionId := sid, lastUpdated := t);
      FlowAnswers(svc, req, st, m);
      FlowAnswers(svc, req, u, m);
    } else {
      var r := HandleAsync(svc, req, st);
      TopMenuAnswers(svc, req, r.updatedState.(sessionId := sid, lastUpdated := t));
    }
  }

  /** The literal router never answers a session whose menu name is not one of the four,
      however deep the calls may nest: it routes the request back to itself each time. */
  lemma {:induction false} UnknownMenuNeverFinishes(svc: TransactionService, req: UssdRequest, st: UssdState, fuel: nat)
    requires MenuFromText(st.currentMenu).None?
    ensures HandleAsyncAsWritten(svc, req, st, fuel) == Unfinished
  {
    if fuel > 0 {
      assert st.currentMenu != MenuText(MainMenu);
      UnknownMenuNeverFinishes(svc, req, st, fuel - 1);
      assert RouteToHandlerAsWritten(svc, req, st, fuel - 1) == Unfinished;
    }
  }

  /** On the four menu names the literal router finishes within two nested calls and gives
      the answer of the router the model uses. With the previous lemma: the literal router
      finishes for some bound exactly when the menu name is one of the four. */
  lemma KnownMenuFinishes(svc: TransactionService, req: UssdRequest, st: UssdState, fuel: nat)
    requires MenuFromText(st.currentMenu).Some? && fuel >= 2
    ensures HandleAsyncAsWritten(svc, req, st, fuel) == Finished(HandleAsync(svc, req, st))
  {
    var m := MenuFromText(st.currentMenu).value;
    if m != MainMenu {
      MenuTextInjective(m, MainMenu);
      var inner := RouteToHandler(svc, req, st, m);
      assert RouteToHandlerAsWritten(svc, req, st, fuel - 1) == Finished(inner);
      if AtMenu(inner.updatedState, MainMenu) {
        assert IsBlank(EmptyInput(req).input);
      }
    } else if !IsBlank(req.input) {
      var s := st.(currentMenu := MenuText(SelectedMenu(Trim(req.input))), currentStep := 0);
      MenuTextInjective(SelectedMenu(Trim(req.input)), MainMenu);
      if s.currentMenu != MenuText(MainMenu) {
        assert MenuFromText(s.currentMenu) == Some(SelectedMenu(Trim(req.input))) by {
          MenuTextInjective(MenuFromText(s.currentMenu).value, SelectedMenu(Trim(req.input)));
        }
      }
    }
  }
}
