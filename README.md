# USSD session state machine of Expenses.API

Expenses.API answers USSD keypress rounds from a mobile gateway. A caller dials in and
sees the welcome menu. The caller then walks through one of three flows:

- **add a transaction**: type, a paginated category picker, amount, description;
- **browse the transaction history**: a paginated, numbered listing, then the detail of a
  selected record;
- **see the account balance**.

Each answer is a `CON` response, which keeps the session open, or an `END` response,
which closes it. Between rounds the caller's session state lives in a key-value store as
a JSON document tagged with its runtime class.

This project models that core:

- the shared step navigation of the base handler: `#` goes back, `##` returns to the main
  menu, and every step runs the same preprocessing;
- the three flow handlers and the main-menu router;
- the endpoint that reads, routes and then saves or clears the session;
- the session store with its type discriminator;
- the page arithmetic of `PagedResult`.

## How the model is built

- **Values.** The session state is the datatype `UssdState`. Its `Extension` field
  stands for the runtime class of the C# object: the base class, `AddTransactionState`
  or `TransactionHistoryState`, with that subclass's own fields.
- **Handler routines.** Every handler routine is a function from (service, input,
  state) to a `UssdHandlerResult`.
- **Exceptions.** A routine that can throw returns an `Outcome`: either `Done(result)`,
  or `Raised(at)`, where `at` is the state object as the exception left it. The entry
  points apply the source's catch-all to a `Raised` outcome.
- **The transaction service.** It is a parameter: a datatype of functions, one per
  service call. `None` stands for a call that threw.
- **In-place updates.** The routines that change the shared state object in place are
  methods of the class `UssdStateObject.StateObject`. Each one is proved to leave the
  object holding the state the value model computes. These are:
  - the navigation and its clear hooks;
  - the top menu's choice;
  - the row-number cache.
- **Text loops.** The loops that build the picker and listing texts are methods proved
  against the text functions.
- **The store.** The session store is the class `UssdStateService.SessionStore`, which
  holds a map of entries. The endpoint `UssdController.ProcessUssdRequest` is a method on
  that store.
- **Flows.** `Navigation.Flow` names the concrete handler whose hooks the shared base
  code calls: its menu, step count, prompts and clear hooks.

Paths below are relative to the repository root.

## Model

| member | source | states |
|---|---|---|
| IntMath.CeilDiv | Expenses.API/Shared/Models/PagedResult.cs:6 | `(int)Math.Ceiling((double)n / d)` for a positive d is the integer r with (r-1)·d < n ≤ r·d, negative n included |
| IntMath.CeilDivUnique | Expenses.API/Shared/Models/PagedResult.cs:6 | the ceiling is the only integer with that bracketing property |
| IntMath.Min | Expenses.API/Domain/Ussd/Handlers/AddTransactionHandler.cs:532 | `Math.Min` is a lower bound of both arguments and equals one of them |
| PagedResults.PagedResult.PageCount | Expenses.API/Shared/Models/PagedResult.cs:6 | 0 pages for a non-positive page size, otherwise the ceiling of totalCount / pageSize |
| PagedResults.PageCountBounds | Expenses.API/Shared/Models/PagedResult.cs:6 | the page count is never negative, and for a positive page size it is 0 exactly when nothing is counted |
| PagedResults.HasNextPageIffRowsRemain | Expenses.API/Shared/Models/PagedResult.cs:9-10 | a next page exists exactly when rows lie beyond the current page; a previous one exactly when the page number is at least 2 |
| PagedResults.RowLiesOnSomePage | Expenses.API/Shared/Models/PagedResult.cs:6 | every counted row falls on a page between 1 and PageCount |
| Text.TrimStart | Expenses.API/Domain/Ussd/Handlers/BaseUssdHandler.cs:89 | `TrimStart` never lengthens its input |
| Text.TrimStartFacts | Expenses.API/Domain/Ussd/Handlers/BaseUssdHandler.cs:89 | `TrimStart` drops exactly a white prefix and keeps a suffix that starts with a non-white character |
| Text.TrimEnd | Expenses.API/Domain/Ussd/Handlers/AddTransactionHandler.cs:516-525 | `TrimEnd` never lengthens its input |
| Text.TrimEndFacts | Expenses.API/Domain/Ussd/Handlers/AddTransactionHandler.cs:516-525 | `TrimEnd` drops exactly a white suffix and keeps a prefix that ends with a non-white character |
| Text.Trim | Expenses.API/Domain/Ussd/Handlers/BaseUssdHandler.cs:89 | `Trim` never lengthens its input |
| Text.TrimFacts | Expenses.API/Domain/Ussd/Handlers/BaseUssdHandler.cs:89 | the trimmed text is empty or neither starts nor ends with a white character |
| Text.BlankIffTrimmedEmpty | Expenses.API/Domain/Ussd/Handlers/BaseUssdHandler.cs:122-160 | `IsNullOrWhiteSpace` holds exactly when the trimmed text is empty |
| Text.TrimIdempotent | Expenses.API/Domain/Ussd/Handlers/BaseUssdHandler.cs:89 | trimming twice is trimming once |
| Text.NatToString | Expenses.API/Domain/Ussd/Handlers/TransactionHistoryHandler.cs:457 | a rendered natural number is a non-empty string of digits with no leading zero |
| Text.IntToString | Expenses.API/Domain/Ussd/Handlers/TransactionHistoryHandler.cs:457 | a rendered integer is non-empty and starts with '-' exactly when it is negative |
| Text.ParseInt | Expenses.API/Domain/Ussd/Handlers/TransactionHistoryHandler.cs:241 | `int.TryParse` succeeds only on white-free text that starts with a digit or sign, and only with a 32-bit value |
| Text.ParseIntOfIntToString | Expenses.API/Domain/Ussd/Handlers/TransactionHistoryHandler.cs:238-246 | a 32-bit number that is shown parses back to that number |
| Text.ParseDecimal | Expenses.API/Domain/Ussd/Handlers/AddTransactionHandler.cs:223 | a decimal read succeeds only on non-empty text |
| Text.ParseDecimalOfIntToString | Expenses.API/Domain/Ussd/Handlers/AddTransactionHandler.cs:223 | a typed integer amount reads as that integer |
| Text.ParseDecimalOfPointed | Expenses.API/Domain/Ussd/Handlers/AddTransactionHandler.cs:223 | a typed amount "w.f" in digits reads as w plus f scaled down by one power of ten per fractional digit ("15.50" reads 15 + 50/100) |
| Text.FormatFixed2 | Expenses.API/Domain/Ussd/Handlers/AddTransactionHandler.cs:465-471 | the `:F2` text has two decimals after a '.' and no sign for a non-negative amount |
| Text.FormatFixed2ReadsBack | Expenses.API/Domain/Ussd/Handlers/AddTransactionHandler.cs:465-471 | the `:F2` text of a non-negative amount reads back as the amount rounded to whole cents, within half a cent of it |
| Text.FormatFixed2OfNegative | Expenses.API/Domain/Ussd/Handlers/AddTransactionHandler.cs:465-471 | a negative amount that does not round to zero is written as its magnitude after a '-' |
| Text.HasLeast | Expenses.API/Domain/Ussd/Handlers/TransactionHistoryHandler.cs:259 | every non-empty finite set of keys has a least element |
| Text.Least | Expenses.API/Domain/Ussd/Handlers/TransactionHistoryHandler.cs:259 | the least key is a key and lies below all others |
| Text.PrependLeast | Expenses.API/Domain/Ussd/Handlers/TransactionHistoryHandler.cs:259 | the least key in front of an ascending listing of the rest lists the whole set in ascending order |
| Text.SortedInts | Expenses.API/Domain/Ussd/Handlers/TransactionHistoryHandler.cs:259 | `Keys.OrderBy(k => k)` lists every key once, in strictly ascending order |
| UssdModels.MenuText | Expenses.API/Domain/Ussd/Models/UssdMenuName.cs:5-10 | every menu name renders as its identifier (at least 8 characters) |
| UssdModels.MenuFromText | Expenses.API/Domain/Ussd/Models/UssdMenuName.cs:5-10 | a text names a menu exactly when it is that menu's rendering |
| UssdModels.TypeName | Expenses.API/Domain/Ussd/Services/UssdStateServiceImpl.cs:58-59 | the simple type name is "UssdState" exactly for the base class |
| Navigation.MenuName | Expenses.API/Domain/Ussd/Handlers/BaseUssdHandler.cs:16 | no flow handler serves the main menu |
| Navigation.TotalSteps | Expenses.API/Domain/Ussd/Handlers/BaseUssdHandler.cs:22 | every flow has at least one step |
| Navigation.GetNextStep | Expenses.API/Domain/Ussd/Handlers/BaseUssdHandler.cs:38-43 | the next step is one further below the last step, and the step itself at or beyond it |
| Navigation.GetPreviousStep | Expenses.API/Domain/Ussd/Handlers/BaseUssdHandler.cs:48-53 | the previous step is one back, never below the first step |
| Navigation.NextAndPreviousAreInverse | Expenses.API/Domain/Ussd/Handlers/BaseUssdHandler.cs:38-67 | forward then back, and back then forward, return to the step; the last step is exactly the step forward does not move |
| Navigation.OptionsMatchNavigation | Expenses.API/Domain/Ussd/Handlers/BaseUssdHandler.cs:70-115 | the options always end with a line of their own offering "## Main Menu"; "# Back" is offered exactly at the steps where "#" keeps the session in its menu one step back; at the first step, where "#" leaves for the main menu, it is not |
| Navigation.GetPromptForStep | Expenses.API/Domain/Ussd/Handlers/BaseUssdHandler.cs:178-184 | a step outside the step order is prompted "Continue:" |
| Navigation.ClearCurrentStepData | Expenses.API/Domain/Ussd/Handlers/BaseUssdHandler.cs:166 | a back-navigation hook changes only the subclass fields and never the runtime class |
| Navigation.ClearTransactionData | Expenses.API/Domain/Ussd/Handlers/BaseUssdHandler.cs:172 | a clear-everything hook changes only the subclass fields and never the runtime class |
| Navigation.HandleNavigation | Expenses.API/Domain/Ussd/Handlers/BaseUssdHandler.cs:88-115 | control tokens never change the runtime class of the state |
| Navigation.NavigationEffect | Expenses.API/Domain/Ussd/Handlers/BaseUssdHandler.cs:88-115 | "##", and "#" at the first step, go to the main menu at step 0 with the flow's data cleared; "#" later goes back one step in the same menu, clearing only the step left; other input changes nothing |
| Navigation.HandleStepPreprocessing | Expenses.API/Domain/Ussd/Handlers/BaseUssdHandler.cs:122-160 | preprocessing never changes the runtime class of the state |
| Navigation.PreprocessingOutcomes | Expenses.API/Domain/Ussd/Handlers/BaseUssdHandler.cs:122-160 | blank input re-prompts untouched; "#" past the first step prompts the previous step; "##" (or "#" at the first step) answers at the main menu; other input proceeds with the state untouched |
| Navigation.TrimmedPlainInputNotBlank | Expenses.API/Domain/Ussd/Handlers/AddTransactionHandler.cs:246-250 | input that survives preprocessing is not blank once trimmed |
| Navigation.NumberIsPlainInput | Expenses.API/Domain/Ussd/Handlers/AddTransactionHandler.cs:174-207 | a number is neither blank nor a control token |
| AddTransactionSteps.GetTotalPages | Expenses.API/Domain/Ussd/Handlers/AddTransactionHandler.cs:563-565 | the picker has ceiling(10 / 5) pages |
| AddTransactionSteps.CategoryPageLines | Expenses.API/Domain/Ussd/Handlers/AddTransactionHandler.cs:530-541 | the lines of a page fail (an index exception) exactly for a negative page |
| AddTransactionSteps.GetCategoryList | Expenses.API/Domain/Ussd/Handlers/AddTransactionHandler.cs:516-525 | the picker body fails exactly for a negative page |
| AddTransactionSteps.GetCategoryPrompt | Expenses.API/Domain/Ussd/Handlers/AddTransactionHandler.cs:170-172 | the picker prompt fails exactly for a negative page |
| AddTransactionSteps.TryParseCategorySelection | Expenses.API/Domain/Ussd/Handlers/AddTransactionHandler.cs:351-364 | a selection succeeds exactly for a number from 1 to 10, and gives the label at that 1-based position |
| AddTransactionSteps.ShownNumberSelectsShownCategory | Expenses.API/Domain/Ussd/Handlers/AddTransactionHandler.cs:530-541 | category i is shown under number i+1 on page i/5, a real page, and typing that number selects it from any page |
| AddTransactionSteps.ClearCurrentStepData | Expenses.API/Domain/Ussd/Handlers/AddTransactionHandler.cs:584-616 | leaving a step forgets exactly what that step collected (the category step also rewinds the picker); other shapes are untouched |
| AddTransactionSteps.ClearTransactionData | Expenses.API/Domain/Ussd/Handlers/AddTransactionHandler.cs:621-632 | all four entries are forgotten and the picker rewinds; other shapes are untouched |
| AddTransactionFlow.EnsureAddTransactionState | Expenses.API/Domain/Ussd/Handlers/AddTransactionHandler.cs:116-136 | the result is an add-transaction state with the same base fields, the same object when it already was one, otherwise with empty entries |
| AddTransactionFlow.CreateTransaction | Expenses.API/Domain/Ussd/Handlers/AddTransactionHandler.cs:446-460 | without a collected amount no record is created |
| AddTransactionFlow.ShowCategoryPage | Expenses.API/Domain/Ussd/Handlers/AddTransactionHandler.cs:292-298 | showing the picker throws exactly on a negative page, otherwise answers `CON` with the state unchanged |
| AddTransactionFlow.PagedCategoryPage | Expenses.API/Domain/Ussd/Handlers/AddTransactionHandler.cs:328-346 | only "*" and "**" are paging commands |
| AddTransactionFlow.HandleCategoryPagination | Expenses.API/Domain/Ussd/Handlers/AddTransactionHandler.cs:328-346 | pagination answers exactly the paging commands |
| AddTransactionProperties.CategoryPagingClamped | Expenses.API/Domain/Ussd/Handlers/AddTransactionHandler.cs:328-346 | "*" moves forward only below the last page, "**" back only above the first; the page stays in range |
| AddTransactionProperties.AtMainMenuNothingHappens | Expenses.API/Domain/Ussd/Handlers/AddTransactionHandler.cs:57-110 | at the main menu the handler answers an empty `CON` and leaves the state alone |
| AddTransactionProperties.HandleAsyncRunsStep | Expenses.API/Domain/Ussd/Handlers/AddTransactionHandler.cs:57-110 | at its menu the handler answers with its step's handler on the converted state |
| AddTransactionProperties.HandleAsyncAtStep | Expenses.API/Domain/Ussd/Handlers/AddTransactionHandler.cs:57-110 | the handler each in-range step number runs |
| AddTransactionProperties.PlainInputProceeds | Expenses.API/Domain/Ussd/Handlers/BaseUssdHandler.cs:122-160 | plain input at the state's own step passes preprocessing untouched |
| AddTransactionProperties.TypeHandler | Expenses.API/Domain/Ussd/Handlers/AddTransactionHandler.cs:145-165 | "1"/"2" store Income/Expense and prompt the category; other input re-prompts with the error and changes nothing |
| AddTransactionProperties.TransactionTypeStep | Expenses.API/Domain/Ussd/Handlers/AddTransactionHandler.cs:145-165 | the same, end to end through the handler entry point |
| AddTransactionProperties.CategoryStepAnswers | Expenses.API/Domain/Ussd/Handlers/AddTransactionHandler.cs:57-110 | at the category step the entry point answers whatever the category step answers |
| AddTransactionProperties.CategorySelectionIgnoresPage | Expenses.API/Domain/Ussd/Handlers/AddTransactionHandler.cs:174-207 | a number from 1 to 10 selects that category from any page, rewinds the picker and prompts the amount |
| AddTransactionProperties.AmountHandler | Expenses.API/Domain/Ussd/Handlers/AddTransactionHandler.cs:214-230 | a positive decimal is stored and the description is prompted; anything else re-prompts with the error and changes nothing |
| AddTransactionProperties.AmountStep | Expenses.API/Domain/Ussd/Handlers/AddTransactionHandler.cs:214-230 | the same, end to end through the handler entry point |
| AddTransactionProperties.DescriptionHandler | Expenses.API/Domain/Ussd/Handlers/AddTransactionHandler.cs:237-255 | a description creates the record at once: success ends with its summary and cleared entries at step 0, failure ends with the creation-failed message |
| AddTransactionProperties.DescriptionStepFinalizes | Expenses.API/Domain/Ussd/Handlers/AddTransactionHandler.cs:386-414 | the same, end to end: there is no confirmation round |
| AddTransactionProperties.PreprocessingKeepsValid | Expenses.API/Domain/Ussd/Handlers/BaseUssdHandler.cs:122-160 | preprocessing a valid add session answers soundly or proceeds with it untouched |
| AddTransactionProperties.TypeStepKeepsValid | Expenses.API/Domain/Ussd/Handlers/AddTransactionHandler.cs:145-165 | the type step answers soundly |
| AddTransactionProperties.AmountStepKeepsValid | Expenses.API/Domain/Ussd/Handlers/AddTransactionHandler.cs:214-230 | the amount step answers soundly |
| AddTransactionProperties.DescriptionStepKeepsValid | Expenses.API/Domain/Ussd/Handlers/AddTransactionHandler.cs:237-255 | the description step answers soundly |
| AddTransactionProperties.PickerKeepsValid | Expenses.API/Domain/Ussd/Handlers/AddTransactionHandler.cs:292-298 | the picker and its error screen never throw on a page in range, and answer soundly |
| AddTransactionProperties.CategoryNavigationKeepsValid | Expenses.API/Domain/Ussd/Handlers/AddTransactionHandler.cs:303-322 | leaving the category step by a control token answers soundly |
| AddTransactionProperties.CategoryPagingKeepsValid | Expenses.API/Domain/Ussd/Handlers/AddTransactionHandler.cs:328-346 | a paging command re-shows the picker soundly |
| AddTransactionProperties.CategorySelectionKeepsValid | Expenses.API/Domain/Ussd/Handlers/AddTransactionHandler.cs:174-207 | a category answer is taken, or re-asked, soundly |
| AddTransactionProperties.CategoryStepKeepsValid | Expenses.API/Domain/Ussd/Handlers/AddTransactionHandler.cs:174-207 | the category step never throws from a valid session and answers soundly |
| AddTransactionProperties.HandleAsyncKeepsSessionValid | Expenses.API/Domain/Ussd/Handlers/AddTransactionHandler.cs:57-110 | from a valid add session no input yields the generic apology, and every `CON` leaves a valid add session or the main menu |
| AddTransactionProperties.BlankInputRepeats | Expenses.API/Domain/Ussd/Handlers/BaseUssdHandler.cs:122-135 | blank input at a waiting add step re-prompts that step with a `CON` and leaves the session as it was; sent again it gets the same answer |
| TransactionHistorySteps.GetTotalPages | Expenses.API/Domain/Ussd/Handlers/TransactionHistoryHandler.cs:505-507 | the listing has ceiling(totalCount / 5) pages |
| TransactionHistorySteps.ListQuery | Expenses.API/Domain/Ussd/Handlers/TransactionHistoryHandler.cs:409-417 | newest first, five rows, on the 1-based page that holds every row shown under the state page's display numbers; a valid page exactly when the state page is not negative |
| TransactionHistorySteps.LoadTransactionById | Expenses.API/Domain/Ussd/Handlers/TransactionHistoryHandler.cs:422-427 | a missing or blank id finds nothing without asking the service |
| TransactionHistorySteps.FormatTransactionList | Expenses.API/Domain/Ussd/Handlers/TransactionHistoryHandler.cs:432-445 | the listing body is the "no transactions" notice exactly for an empty page |
| TransactionHistorySteps.CacheDisplayedTransactions | Expenses.API/Domain/Ussd/Handlers/TransactionHistoryHandler.cs:562-569 | each shown number maps to its row's id, every earlier entry outside the shown numbers is kept, and nothing else is added |
| TransactionHistorySteps.TryParseTransactionSelection | Expenses.API/Domain/Ussd/Handlers/TransactionHistoryHandler.cs:238-246 | a selection succeeds exactly for a parsed number in the cache, and gives the id cached under it |
| TransactionHistorySteps.ClearCurrentStepData | Expenses.API/Domain/Ussd/Handlers/TransactionHistoryHandler.cs:523-543 | leaving the list rewinds the pager and empties the cache, leaving the detail forgets the selection; other shapes are untouched |
| TransactionHistorySteps.ClearTransactionData | Expenses.API/Domain/Ussd/Handlers/TransactionHistoryHandler.cs:548-556 | pager rewound, selection forgotten, cache emptied; other shapes are untouched |
| TransactionHistoryFlow.EnsureTransactionHistoryState | Expenses.API/Domain/Ussd/Handlers/TransactionHistoryHandler.cs:91-107 | the result is a history state with the same base fields, the same object when it already was one, otherwise at page 0 with no selection and an empty cache |
| TransactionHistoryFlow.ShowTransactionListPage | Expenses.API/Domain/Ussd/Handlers/TransactionHistoryHandler.cs:159-167 | showing a page throws exactly when the listing call fails, with the state untouched |
| TransactionHistoryFlow.HandleTransactionListPagination | Expenses.API/Domain/Ussd/Handlers/TransactionHistoryHandler.cs:197-233 | pagination answers exactly "*" and "**" |
| TransactionHistoryFlow.CompleteTransactionHistory | Expenses.API/Domain/Ussd/Handlers/TransactionHistoryHandler.cs:349-383 | completion always ends the session |
| TransactionHistoryFlow.RecordForCompletion | Expenses.API/Domain/Ussd/Handlers/TransactionHistoryHandler.cs:313-343 | a failing lookup throws with the state untouched |
| TransactionHistoryProperties.DisplayNumbersAreDistinct | Expenses.API/Domain/Ussd/Handlers/TransactionHistoryHandler.cs:562-569 | row numbers are at least 1 and never collide across pages of five |
| TransactionHistoryProperties.ShownNumberSelectsRow | Expenses.API/Domain/Ussd/Handlers/TransactionHistoryHandler.cs:238-246 | once a page is shown, typing the number in front of a row selects that row |
| TransactionHistoryProperties.ShowingAPageCachesIt | Expenses.API/Domain/Ussd/Handlers/TransactionHistoryHandler.cs:159-167 | showing loads exactly the state's page, caches every row under its number without dropping earlier numbers, and answers the listing |
| TransactionHistoryProperties.PagingIsClamped | Expenses.API/Domain/Ussd/Handlers/TransactionHistoryHandler.cs:197-233 | paging moves one page within 0 .. last and re-shows; at either end a notice sits above the current listing and nothing changes |
| TransactionHistoryProperties.SelectionEndsSession | Expenses.API/Domain/Ussd/Handlers/TransactionHistoryHandler.cs:313-383 | a cached number ends the session at once: with the record's detail and cleared data, with "not found", or by throwing on a failed lookup |
| TransactionHistoryProperties.InvalidSelectionShowsValidNumbers | Expenses.API/Domain/Ussd/Handlers/TransactionHistoryHandler.cs:251-270 | any other answer shows the valid numbers above the current listing and changes nothing |
| TransactionHistoryProperties.PlainInputAtListStep | Expenses.API/Domain/Ussd/Handlers/TransactionHistoryHandler.cs:114-149 | plain input at the list step reloads the page (a failure throws), then tries paging, then selection |
| TransactionHistoryProperties.VanishedRecordReturnsToList | Expenses.API/Domain/Ussd/Handlers/TransactionHistoryHandler.cs:272-306 | a record gone by the detail step returns to the list with a notice and forgets the selection |
| TransactionHistoryProperties.ShowingKeepsValid | Expenses.API/Domain/Ussd/Handlers/TransactionHistoryHandler.cs:159-167 | showing a page from a valid history session answers soundly |
| TransactionHistoryProperties.LoadedInputKeepsValid | Expenses.API/Domain/Ussd/Handlers/TransactionHistoryHandler.cs:114-149 | paging, selection and the error screen answer soundly |
| TransactionHistoryProperties.ListStepKeepsValid | Expenses.API/Domain/Ussd/Handlers/TransactionHistoryHandler.cs:114-149 | the list step answers soundly |
| TransactionHistoryProperties.HandleAsyncKeepsSessionValid | Expenses.API/Domain/Ussd/Handlers/TransactionHistoryHandler.cs:48-85 | every `CON` leaves the history session at the list step on a non-negative page, or at the main menu |
| TransactionHistoryProperties.BlankInputRepeats | Expenses.API/Domain/Ussd/Handlers/TransactionHistoryHandler.cs:114-120 | blank input at the list step re-shows the current page without leaving the flow; a `CON` answer, sent again, gets the same answer and leaves the same session |
| TransactionHistoryProperties.SelectingARowEndsTheSession | Expenses.API/Domain/Ussd/Handlers/TransactionHistoryHandler.cs:48-85 | end to end, a cached number is answered with `END`: the detail, "not found", or the generic apology |
| AccountBalanceFlow.CompleteAccountBalance | Expenses.API/Domain/Ussd/Handlers/AccountBalanceHandler.cs:132-153 | completion ends the session and only rewinds the step |
| AccountBalanceProperties.BalanceStepOutcomes | Expenses.API/Domain/Ussd/Handlers/AccountBalanceHandler.cs:33-98 | never the generic apology; the load error when the balance fails; an empty `CON` at the main menu for "#"/"##"; otherwise the summary, ending the session with the state unchanged |
| MainMenuFlow.SelectedMenu | Expenses.API/Domain/Ussd/Handlers/MainMenuHandler.cs:42-48 | "1", "2" and "3" pick the three flows, and only they do |
| MainMenuProperties.MenuTextInjective | Expenses.API/Domain/Ussd/Models/UssdMenuName.cs:5-10 | different menus have different names |
| MainMenuProperties.TopMenuAnswers | Expenses.API/Domain/Ussd/Handlers/MainMenuHandler.cs:31-64 | blank input shows the welcome menu untouched; "1"/"2"/"3" enter that flow at step 0 with empty input; anything else is an invalid option at the main menu, step 0 |
| MainMenuProperties.FlowAnswers | Expenses.API/Domain/Ussd/Handlers/MainMenuHandler.cs:14-28 | a session in a flow gets that flow's answer, or the welcome menu in the same round when the flow left it at the main menu |
| MainMenuProperties.UnknownMenuIsMainMenu | Expenses.API/Domain/Ussd/Handlers/MainMenuHandler.cs:95 | the corrected router reads an unknown menu name as the main menu |
| MainMenuProperties.AddFlowIsSound | Expenses.API/Domain/Ussd/Handlers/MainMenuHandler.cs:83-99 | the add flow's answer is sound for the router |
| MainMenuProperties.HistoryFlowIsSound | Expenses.API/Domain/Ussd/Handlers/MainMenuHandler.cs:83-99 | the history flow's answer is sound for the router |
| MainMenuProperties.BalanceFlowIsSound | Expenses.API/Domain/Ussd/Handlers/MainMenuHandler.cs:83-99 | the balance flow's answer is sound for the router |
| MainMenuProperties.EnteringAFlowIsSound | Expenses.API/Domain/Ussd/Handlers/MainMenuHandler.cs:58-64 | entering a flow from the top menu is sound |
| MainMenuProperties.TopMenuIsSound | Expenses.API/Domain/Ussd/Handlers/MainMenuHandler.cs:31-64 | every `CON` of the top menu leaves a well-formed session |
| MainMenuProperties.SessionsStayWellFormed | Expenses.API/Domain/Ussd/Handlers/MainMenuHandler.cs:9-81 | from a well-formed session every `CON` leaves a well-formed one: never at the confirmation or detail step, never on a picker page out of range, never under an unknown menu name |
| MainMenuProperties.BlankInputIsIdempotent | Expenses.API/Domain/Ussd/Handlers/MainMenuHandler.cs:28-40 | a blank request that gets a `CON` gets the same answer and leaves the same session when handled again on the session it left |
| MainMenuProperties.UnknownMenuNeverFinishes | Expenses.API/Domain/Ussd/Handlers/MainMenuHandler.cs:14-28 | as written, an unknown menu name is routed back to the router itself and never answered, at any nesting bound |
| MainMenuProperties.KnownMenuFinishes | Expenses.API/Domain/Ussd/Handlers/MainMenuHandler.cs:83-99 | as written, the four menu names finish within two nested calls with the corrected router's answer |
| UssdStateService.GetKeyInjective | Expenses.API/Domain/Ussd/Services/UssdStateServiceImpl.cs:93-95 | different callers never share a store key |
| UssdStateService.LookupProperties | Expenses.API/Domain/Ussd/Services/UssdStateServiceImpl.cs:62 | a serialized property is found exactly when written, with its value, and the discriminator never is |
| UssdStateService.LookupTaggedDiscriminator | Expenses.API/Domain/Ussd/Services/UssdStateServiceImpl.cs:66-77 | the saved document's discriminator names the state's class |
| UssdStateService.LookupTaggedField | Expenses.API/Domain/Ussd/Services/UssdStateServiceImpl.cs:71-74 | every declared property of the saved document holds its value |
| UssdStateService.RegistryKnowsEveryShape | Expenses.API/Domain/Ussd/Services/UssdStateServiceImpl.cs:15-19 | the registry knows the simple name of every state class |
| UssdStateService.BaseFieldsReadBack | Expenses.API/Domain/Ussd/Services/UssdStateServiceImpl.cs:47 | the base properties read back as saved |
| UssdStateService.BaseTextsReadBack | Expenses.API/Domain/Ussd/Services/UssdStateServiceImpl.cs:47 | phone number, session id and menu read back as saved |
| UssdStateService.BaseNumbersReadBack | Expenses.API/Domain/Ussd/Services/UssdStateServiceImpl.cs:47 | step and timestamps read back as saved, the step when it fits 32 bits |
| UssdStateService.AddFieldsReadBack | Expenses.API/Domain/Ussd/Models/AddTransactionState.cs:2-8 | the add-transaction properties read back as saved |
| UssdStateService.AddTextsReadBack | Expenses.API/Domain/Ussd/Models/AddTransactionState.cs:3-6 | type, category and description read back as saved |
| UssdStateService.AddNumbersReadBack | Expenses.API/Domain/Ussd/Models/AddTransactionState.cs:5-7 | amount and picker page read back as saved |
| UssdStateService.HistoryFieldsReadBack | Expenses.API/Domain/Ussd/Models/TransactionHistoryState.cs:2-9 | page, selection and row cache read back as saved |
| UssdStateService.ExtensionReadsBack | Expenses.API/Domain/Ussd/Services/UssdStateServiceImpl.cs:47 | the subclass part reads back as saved under the class of its shape |
| UssdStateService.TaggedDocumentRoundTrip | Expenses.API/Domain/Ussd/Services/UssdStateServiceImpl.cs:21-86 | reading a saved document gives back the saved state, runtime class and fields alike |
| UssdStateService.DiscriminatorRule | Expenses.API/Domain/Ussd/Services/UssdStateServiceImpl.cs:37-44 | an absent, null, empty or unregistered discriminator reads the base class; a registered name reads its class; a non-string fails the read |
| UssdStateService.SessionStore.constructor | Expenses.API/Domain/Ussd/Services/UssdStateServiceImpl.cs:6-7 | a new store is empty |
| UssdStateService.SessionStore.GetState | Expenses.API/Domain/Ussd/Services/UssdStateServiceImpl.cs:21-51 | the read gives the stored session as the read function decodes it, and nothing for a missing key |
| UssdStateService.SessionStore.SaveState | Expenses.API/Domain/Ussd/Services/UssdStateServiceImpl.cs:53-86 | the state is stamped with the clock and its tagged document is stored under the caller's key for 8 minutes |
| UssdStateService.SessionStore.ClearState | Expenses.API/Domain/Ussd/Services/UssdStateServiceImpl.cs:88-91 | only the caller's key is deleted |
| UssdStateService.SaveThenRead | Expenses.API/Domain/Ussd/Services/UssdStateServiceImpl.cs:21-86 | after a save the caller reads the stamped state back, and other callers read as before |
| UssdStateService.ClearThenRead | Expenses.API/Domain/Ussd/Services/UssdStateServiceImpl.cs:88-91 | after a clear the caller reads nothing, and other callers read as before |
| UssdController.ProcessUssdRequest | Expenses.API/Controllers/UssdController.cs:16-55 | the endpoint leaves the store and answers exactly as Drive defines |
| UssdController.DriveEffect | Expenses.API/Controllers/UssdController.cs:16-55 | a blank phone number is refused with nothing changed; otherwise the router's answer, a `CON` saves the routed session, an `END` deletes it, and no other caller is affected |
| UssdController.SessionForWellFormed | Expenses.API/Controllers/UssdController.cs:22-37 | the session a request starts from is well formed when the store is |
| UssdController.DriveKeepsStoreWellFormed | Expenses.API/Controllers/UssdController.cs:16-55 | every request keeps every stored session well formed |
| UssdController.BlankRequestIsIdempotent | Expenses.API/Controllers/UssdController.cs:16-55 | a blank request answered with `CON` and delivered twice gets the same answer twice; the second delivery only restamps the stored session and never moves it on |
| UssdController.FirstDialShowsWelcome | Expenses.API/Controllers/UssdController.cs:24-31 | a first dial shows the welcome menu and stores a fresh session at the main menu, step 0 |
| UssdStateObject.StateObject.constructor | Expenses.API/Domain/Ussd/Models/UssdState.cs:2-9 | the object holds the given state |
| UssdStateObject.StateObject.ClearTransactionData | Expenses.API/Domain/Ussd/Handlers/AddTransactionHandler.cs:621-632 | the in-place clear hook leaves the object holding what the value hook computes (add, history and balance hooks) |
| UssdStateObject.StateObject.ClearCurrentStepData | Expenses.API/Domain/Ussd/Handlers/TransactionHistoryHandler.cs:523-543 | the in-place back hook leaves the object holding what the value hook computes (add, history and balance hooks) |
| UssdStateObject.StateObject.HandleNavigation | Expenses.API/Domain/Ussd/Handlers/BaseUssdHandler.cs:88-115 | in-place navigation leaves the object holding what the navigation function computes |
| UssdStateObject.StateObject.SelectMenu | Expenses.API/Domain/Ussd/Handlers/MainMenuHandler.cs:42-51 | the top menu's answer sets the chosen menu and step 0 and nothing else |
| UssdStateObject.StateObject.CacheDisplayedTransactions | Expenses.API/Domain/Ussd/Handlers/TransactionHistoryHandler.cs:562-569 | the cache loop leaves exactly the cache the cache function specifies and changes nothing else |
| UssdStateObject.CachedRowsDetermineTheCache | Expenses.API/Domain/Ussd/Handlers/TransactionHistoryHandler.cs:562-569 | a cache that agrees with every recorded row and keeps the rest is the specified cache |
| UssdStateObject.BuildCategoryListForPage | Expenses.API/Domain/Ussd/Handlers/AddTransactionHandler.cs:530-541 | the picker loop builds exactly the page's lines, and throws for a negative page |
| UssdStateObject.CategoryLinesStep | Expenses.API/Domain/Ussd/Handlers/AddTransactionHandler.cs:536-538 | one appended picker line moves from the text to build to the text built |
| UssdStateObject.BuildTransactionListForPage | Expenses.API/Domain/Ussd/Handlers/TransactionHistoryHandler.cs:450-464 | the listing loop builds exactly the numbered rows with breaks between them |
| UssdStateObject.ListPiecesStep | Expenses.API/Domain/Ussd/Handlers/TransactionHistoryHandler.cs:454-461 | one iteration appends the row's line, then a break unless it is the last row |

## Left out

- Floating point. Amounts are exact reals. `double.TryParse` is modelled for plain
  decimal notation only: no exponents, thousands separators, culture, "NaN" or
  "Infinity". As a result the model does not see that "NaN" would pass the `amount <= 0`
  test.
- Number formatting. `:F2` is FormatFixed2 on reals, with half-away-from-zero rounding.
  A negative amount that rounds to zero cents is written "0.00" (newer .NET runtimes
  write "-0.00").
  The detail view's date format `MMM dd, yyyy h:mm tt` is not modelled: a record's date
  is the text already rendered.
- Clocks. Timestamps (`CreatedAt`, `LastUpdated`) are opaque integers. One clock reading
  stands for every clock read within one request.
- Integer width. 32-bit overflow of the step and page arithmetic and of the row numbers
  is not modelled. Integers are unbounded, except that `int.TryParse` and the JSON reader
  reject values outside 32 bits.
- Null input. A null `Input` is read as the empty string.
- The transaction service and the database behind it. They are a deterministic
  parameter. Consequences:
  - The add flow's second creation attempt after a failed one
    (AddTransactionHandler.cs:480-482) repeats the same outcome.
  - In the history flow a lookup is repeated inside completion after it found nothing
    (TransactionHistoryHandler.cs:317-320 and 352-354). The repeat gives the same answer,
    so the load-error message of completion's catch is never produced; a failing lookup
    throws before completion and ends with the generic apology.
- Redis itself. Concurrency between requests is not modelled. The 8-minute expiry is
  recorded with each entry but not enforced: an entry never expires in the model.
- JSON. It is modelled as property lists with abstract values, and property order is not
  significant on reading. A JSON null inside a non-nullable string property is treated as
  a failed read. The source's `JsonSerializer.Deserialize` with default options
  (UssdStateServiceImpl.cs:47) instead stores the null. For `CurrentMenu` that null would
  then reach the main-menu router's `_ => this` fallback.
- Logging, the dependency-injection container and `GetRequiredService`. A handler is
  chosen statically by flow.
- The step handlers themselves. The three flows' step handlers, and the routing between
  them, are modelled on values, not in place on a shared object. Only the shared
  navigation, the clear hooks, the menu choice, the row-number cache and the text loops
  are methods on `StateObject`. The model does not capture aliasing between the handler's
  converted copy and the caller's object, beyond the rule that an exception hands back
  the object that was passed in.
- MainMenuFlow.HandleAsync: the source's catch-all has nothing to catch in the model
  (every flow catches its own exceptions), so it is left out.
- MainMenuFlow.HandleAsyncAsWritten: the nesting of calls is bounded by a `fuel` count.
  A run that exhausts it is reported as unfinished; the model does not say how the
  runtime fails (a stack overflow).
- UssdController.Drive: a request is routed through the corrected router
  MainMenuFlow.HandleAsync, not through the router as written
  (MainMenuFlow.HandleAsyncAsWritten). The two give the same answer on every session the
  program itself stores (MainMenuProperties.KnownMenuFinishes with
  UssdController.DriveKeepsStoreWellFormed); they differ only on a stored menu name
  outside the four, as the finding below records.
- Behaviour of the code worth knowing (modelled as written):
  - The add flow never shows a confirmation prompt. The description step creates the
    record at once (AddTransactionHandler.cs:386-414), so the confirmation step is never
    reached from a stored session.
  - The history row-number cache accumulates across pages
    (TransactionHistoryHandler.cs:562-569): it is emptied only when leaving the list step
    or completing.
  - The category picker clamps silently: "*" on the last page and "**" on the first
    re-show the same page with no notice (AddTransactionHandler.cs:331-343;
    AddTransactionProperties.CategoryPagingClamped).
  - A cached row number whose record has vanished ends the session with "not found"
    rather than returning to the list (TransactionHistoryHandler.cs:328-333 and 356-360;
    TransactionHistoryProperties.SelectionEndsSession).
- Other parts of the repository are not part of this model: the REST transaction
  controller, the Redis test and ping controllers, the database context, user records and
  the console program.

## Findings

| source | as written | input that shows it | evidently intended | confidence | as-written member | corrected member |
|---|---|---|---|---|---|---|
| Expenses.API/Domain/Ussd/Handlers/MainMenuHandler.cs:14-28, 83-99 | A menu name outside the four is not the main menu, so the request is routed. The router's fallback (line 95) is the main-menu handler itself, which routes again, without end. | a stored session whose CurrentMenu is "Settings", with any input | treat an unknown menu as the main menu and show the welcome menu or handle the choice | not executed | MainMenuFlow.HandleAsyncAsWritten, with MainMenuProperties.UnknownMenuNeverFinishes | MainMenuFlow.HandleAsync, with MainMenuProperties.UnknownMenuIsMainMenu and MainMenuProperties.KnownMenuFinishes |
