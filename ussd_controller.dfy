/** The USSD endpoint: each request finds or starts the caller's session, runs it through
    the main-menu router, and then keeps the session when the answer is a `CON` or deletes
    it when the answer is an `END`. The clock is a parameter: one reading stands for every
    clock read in a request. */
module UssdController {
  import opened Wrappers
  import opened Text
  import opened UssdModels
  import opened UssdStateService
  import MainMenuFlow
  import MP = MainMenuProperties

  /** The HTTP answer: 200 with the USSD response, or 400 with an error text. */
  datatype ActionResult = Ok(response: UssdResponse) | BadRequest(error: string)

  const PhoneNumberRequired: string := "Phone number is required"

  /** The session a request is handled with: the stored one, whose session id the request
      replaces when it carries a non-blank one, or a fresh session at the main menu with
      the request's phone number and session id. */
  function SessionFor(stored: Option<UssdState>, req: UssdRequest, now: int): UssdState
  {
    match stored
    case None => UssdState(req.phoneNumber, req.sessionId, MenuText(MainMenu), 0, now, now, Base)
    case Some(st) =>
      if req.sessionId.Some? && !IsBlank(req.sessionId.value) then st.(sessionId := req.sessionId) else st
  }

  /** One request against the store `entries`: the store afterwards and the answer. A
      blank phone number is refused before the store is read or written. */
  function Drive(entries: map<string, StoredEntry>, svc: TransactionService, req: UssdRequest, now: int)
    : (map<string, StoredEntry>, ActionResult)
  {
    if IsBlank(req.phoneNumber) then (entries, BadRequest(PhoneNumberRequired))
    else
      var st := SessionFor(ReadState(entries, req.phoneNumber, now), req, now);
      var result := MainMenuFlow.HandleAsync(svc, req, st);
      if result.response.Continue? then (Saved(entries, req.phoneNumber, result.updatedState, now), Ok(result.response))
      else (entries - {GetKey(req.phoneNumber)}, Ok(result.response))
  }

  /** The endpoint. */
  method ProcessUssdRequest(store: SessionStore, svc: TransactionService, req: UssdRequest, now: int) returns (r: ActionResult)
    modifies store
    ensures (store.entries, r) == Drive(old(store.entries), svc, req, now)
  {
    if IsBlank(req.phoneNumber) {
      return BadRequest(PhoneNumberRequired);
    }
    var stored := store.GetState(req.phoneNumber, now);
    var state: UssdState;
    if stored.None? {
      state := UssdState(req.phoneNumber, req.sessionId, MenuText(MainMenu), 0, now, now, Base);
    } else {
      state := stored.value;
      if req.sessionId.Some? && !IsBlank(req.sessionId.value) {
        state := state.(sessionId := req.sessionId);
      }
    }
    var result := MainMenuFlow.HandleAsync(svc, req, state);
    if result.response.Continue? {
      var _ := store.SaveState(req.phoneNumber, result.updatedState, now);
    } else {
      store.ClearState(req.phoneNumber);
    }
    r := Ok(result.response);
  }

  /** What one request does to the store: a blank phone number changes nothing and is
      refused; otherwise the answer is the router's, a `CON` leaves the routed session
      readable under the caller's key and an `END` leaves nothing there, and no other
      caller's session changes. */
  lemma DriveEffect(entries: map<string, StoredEntry>, svc: TransactionService, req: UssdRequest, now: int, other: string, later: int)
    ensures var (after, answer) := Drive(entries, svc, req, now);
      && (IsBlank(req.phoneNumber) ==> after == entries && answer == BadRequest(PhoneNumberRequired))
      && (!IsBlank(req.phoneNumber) ==>
            var result := MainMenuFlow.HandleAsync(svc, req, SessionFor(ReadState(entries, req.phoneNumber, now), req, now));
            var s := result.updatedState.(lastUpdated := now);
            && answer == Ok(result.response)
            && (result.response.Continue? ==> ReadState(after, req.phoneNumber, later) == if Int32Fields(s) then Some(s) else None)
            && (result.response.End? ==> ReadState(after, req.phoneNumber, later).None?))
      && (other != req.phoneNumber ==> ReadState(after, other, later) == ReadState(entries, other, later))
  {
    if !IsBlank(req.phoneNumber) {
      var result := MainMenuFlow.HandleAsync(svc, req, SessionFor(ReadState(entries, req.phoneNumber, now), req, now));
      if result.response.Continue? {
        SaveThenRead(entries, req.phoneNumber, result.updatedState, now, other, later);
      } else {
        ClearThenRead(entries, req.phoneNumber, other, later);
      }
    }
  }

  /** Every session the store yields is well formed, whatever the reading clock. */
  ghost predicate StoreWellFormed(entries: map<string, StoredEntry>)
  {
    forall phone, t :: ReadState(entries, phone, t).Some? ==> MP.WellFormedSession(ReadState(entries, phone, t).value)
  }

  /** The session a request is handled with is well formed when the store is. */
  lemma SessionForWellFormed(entries: map<string, StoredEntry>, req: UssdRequest, now: int)
    requires StoreWellFormed(entries)
    ensures MP.WellFormedSession(SessionFor(ReadState(entries, req.phoneNumber, now), req, now))
  {
    var stored := ReadState(entries, req.phoneNumber, now);
    if stored.Some? {
      assert MP.WellFormedSession(stored.value);
    }
  }

  /** Requests keep the store well formed: no sequence of requests can leave a session
      at the add flow's confirmation step, at the history detail step, on a picker page
      out of range, or under an unknown menu name. */
  lemma DriveKeepsStoreWellFormed(entries: map<string, StoredEntry>, svc: TransactionService, req: UssdRequest, now: int)
    requires StoreWellFormed(entries)
    ensures StoreWellFormed(Drive(entries, svc, req, now).0)
  {
    var after := Drive(entries, svc, req, now).0;
    if !IsBlank(req.phoneNumber) {
      var st := SessionFor(ReadState(entries, req.phoneNumber, now), req, now);
      SessionForWellFormed(entries, req, now);
      MP.SessionsStayWellFormed(svc, req, st);
      forall phone, t | ReadState(after, phone, t).Some?
        ensures MP.WellFormedSession(ReadState(after, phone, t).value)
      {
        DriveEffect(entries, svc, req, now, phone, t);
      }
    }
  }

  /** A duplicate delivery of a blank request is harmless: when the first delivery was
      answered with a `CON` and its session was stored, delivering the same request again
      gives the same answer, and the session stored afterwards differs from the one stored
      by the first delivery only in its timestamp and, when the request carries one, its
      session id. The session never advances twice. */
  lemma BlankRequestIsIdempotent(entries: map<string, StoredEntry>, svc: TransactionService, req: UssdRequest, now: int, later: int)
    requires StoreWellFormed(entries) && !IsBlank(req.phoneNumber) && IsBlank(req.input)
    requires Drive(entries, svc, req, now).1.Ok? && Drive(entries, svc, req, now).1.response.Continue?
    requires ReadState(Drive(entries, svc, req, now).0, req.phoneNumber, later).Some?
    ensures var (first, answer) := Drive(entries, svc, req, now);
      var (second, again) := Drive(first, svc, req, later);
      && again == answer
      && ReadState(second, req.phoneNumber, later).Some?
      && var s1 := ReadState(first, req.phoneNumber, later).value;
         var s2 := ReadState(second, req.phoneNumber, later).value;
         s2 == s1.(sessionId := s2.sessionId, lastUpdated := later)
  {
    var st := SessionFor(ReadState(entries, req.phoneNumber, now), req, now);
    var r := MainMenuFlow.HandleAsync(svc, req, st);
    var first := Drive(entries, svc, req, now).0;
    SessionForWellFormed(entries, req, now);
    DriveEffect(entries, svc, req, now, req.phoneNumber, later);
    var s1 := r.updatedState.(lastUpdated := now);
    assert ReadState(first, req.phoneNumber, later) == Some(s1);
    var st2 := SessionFor(Some(s1), req, later);
    assert st2 == r.updatedState.(sessionId := st2.sessionId, lastUpdated := now);
    MP.BlankInputIsIdempotent(svc, req, st, st2.sessionId, now);
    DriveEffect(first, svc, req, later, req.phoneNumber, later);
    assert Int32Fields(st2.(lastUpdated := later));
  }

  /** A first dial with no input shows the welcome menu and stores a fresh session at the
      main menu, step 0, with the caller's number and session id. */
  lemma FirstDialShowsWelcome(entries: map<string, StoredEntry>, svc: TransactionService, req: UssdRequest, now: int, later: int)
    requires !IsBlank(req.phoneNumber) && ReadState(entries, req.phoneNumber, now).None? && IsBlank(req.input)
    ensures var (after, answer) := Drive(entries, svc, req, now);
      && answer == Ok(Continue(MainMenuFlow.WelcomeMenu))
      && ReadState(after, req.phoneNumber, later) == Some(UssdState(req.phoneNumber, req.sessionId, MenuText(MainMenu), 0, now, now, Base))
  {
    var st := UssdState(req.phoneNumber, req.sessionId, MenuText(MainMenu), 0, now, now, Base);
    MP.TopMenuAnswers(svc, req, st);
    DriveEffect(entries, svc, req, now, req.phoneNumber, later);
  }
}
