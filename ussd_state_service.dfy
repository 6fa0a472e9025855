/** The session store: one JSON document per caller, kept in a key-value store under
    "ussd:state:" + phone number with an eight-minute expiry. A document is written with
    its `$stateType` discriminator first, followed by every property of the state; reading
    picks the state class the discriminator names and falls back to the base class.

    JSON is modelled as a list of named properties with abstract values, and the store as
    a map from keys to stored entries; text that does not parse as a JSON object is a value
    of its own. */
module UssdStateService {
  import opened Wrappers
  import opened IntMath
  import opened UssdModels

  const SessionExpirationMinutes: int := 8
  const KeyPrefix: string := "ussd:state:"
  const TypeDiscriminatorProperty: string := "$stateType"

  /** The store key of a caller's session. */
  function GetKey(phoneNumber: string): string
  {
    KeyPrefix + phoneNumber
  }

  /** Different callers never share a key. */
  lemma GetKeyInjective(a: string, b: string)
    ensures GetKey(a) == GetKey(b) <==> a == b
  {
    if GetKey(a) == GetKey(b) {
      assert a == GetKey(a)[|KeyPrefix|..];
      assert b == GetKey(b)[|KeyPrefix|..];
    }
  }

  /** The serialized properties of the three state classes. */
  datatype Field =
    | PhoneNumber | SessionId | CurrentMenu | CurrentStep | CreatedAt | LastUpdated
    | TransactionType | TransactionCategory | TransactionAmount | TransactionDescription | CategoryPage
    | TransactionPage | SelectedTransactionId | DisplayedTransactions

  /** The JSON name of a property: the property's own name. */
  function FieldName(f: Field): string
  {
    match f
    case PhoneNumber => "PhoneNumber"
    case SessionId => "SessionId"
    case CurrentMenu => "CurrentMenu"
    case CurrentStep => "CurrentStep"
    case CreatedAt => "CreatedAt"
    case LastUpdated => "LastUpdated"
    case TransactionType => "TransactionType"
    case TransactionCategory => "TransactionCategory"
    case TransactionAmount => "TransactionAmount"
    case TransactionDescription => "TransactionDescription"
    case CategoryPage => "CategoryPage"
    case TransactionPage => "TransactionPage"
    case SelectedTransactionId => "SelectedTransactionId"
    case DisplayedTransactions => "DisplayedTransactions"
  }

  /** A property name that is neither the discriminator nor a state property. */
  type ForeignName = s: string | s != TypeDiscriminatorProperty && forall f :: FieldName(f) != s
    witness "x"

  /** The name of a property in a document. */
  datatype PropertyName = StateTypeTag | Member(field: Field) | Foreign(name: ForeignName)

  /** The JSON values the state classes use: strings, integers (timestamps are opaque clock
      readings), decimal amounts, null, and the row-number table of the history state
      (an object keyed by numbers); `JOther` is any other kind of value. */
  datatype JsonValue =
    | JString(text: string)
    | JNumber(number: int)
    | JDecimal(decimal: real)
    | JNull
    | JIdTable(table: map<int, string>)
    | JOther

  datatype JsonProperty = JsonProperty(name: PropertyName, value: JsonValue)

  /** A JSON object as its properties in document order. */
  type JsonObject = seq<JsonProperty>

  /** What the store holds under a key: a JSON object, or text that is not one. */
  datatype StoredValue = Json(root: JsonObject) | Unparsable

  datatype StoredEntry = StoredEntry(value: StoredValue, expiryMinutes: int)

  /** The value of the property named `n`; when the name occurs more than once the last
      occurrence wins, as in the JSON reader. */
  function Lookup(obj: JsonObject, n: PropertyName): Option<JsonValue>
  {
    if obj == [] then None
    else match Lookup(obj[1..], n)
      case Some(v) => Some(v)
      case None => if obj[0].name == n then Some(obj[0].value) else None
  }

  /** The three registered state classes. */
  datatype StateType = UssdStateType | AddTransactionStateType | TransactionHistoryStateType

  /** The registry of state classes by simple type name. */
  function RegisteredType(name: string): Option<StateType>
  {
    if name == "UssdState" then Some(UssdStateType)
    else if name == "AddTransactionState" then Some(AddTransactionStateType)
    else if name == "TransactionHistoryState" then Some(TransactionHistoryStateType)
    else None
  }

  /** The class of a state's runtime shape. */
  function TypeOf(e: Extension): StateType
  {
    match e
    case Base => UssdStateType
    case AddTransactionFields(_) => AddTransactionStateType
    case TransactionHistoryFields(_) => TransactionHistoryStateType
  }

  /** The class a stored document is read as: the registered class the discriminator
      names; the base class when the discriminator is absent, null, empty or unregistered;
      `None` when it is some other kind of value, whose reading as a string throws. */
  function ResolveTargetType(root: JsonObject): Option<StateType>
  {
    match Lookup(root, StateTypeTag)
    case None => Some(UssdStateType)
    case Some(JNull) => Some(UssdStateType)
    case Some(JString(name)) => Some(RegisteredType(name).GetOr(UssdStateType))
    case Some(_) => None
  }

  /** The readers of the property kinds. Each gives the property's value, the class's
      initial value when the property is absent, or `None` when the value does not fit the
      property's type (the reader throws). */
  function ReadText(root: JsonObject, f: Field, default: string): Option<string>
  {
    match Lookup(root, Member(f))
    case None => Some(default)
    case Some(JString(s)) => Some(s)
    case Some(_) => None
  }

  function ReadOptionalText(root: JsonObject, f: Field): Option<Option<string>>
  {
    match Lookup(root, Member(f))
    case None => Some(None)
    case Some(JNull) => Some(None)
    case Some(JString(s)) => Some(Some(s))
    case Some(_) => None
  }

  function ReadInt32(root: JsonObject, f: Field): Option<int>
  {
    match Lookup(root, Member(f))
    case None => Some(0)
    case Some(JNumber(n)) => if IsInt32(n) then Some(n) else None
    case Some(_) => None
  }

  function ReadTimestamp(root: JsonObject, f: Field, now: int): Option<int>
  {
    match Lookup(root, Member(f))
    case None => Some(now)
    case Some(JNumber(n)) => Some(n)
    case Some(_) => None
  }

  function ReadAmount(root: JsonObject, f: Field): Option<Option<real>>
  {
    match Lookup(root, Member(f))
    case None => Some(None)
    case Some(JNull) => Some(None)
    case Some(JDecimal(x)) => Some(Some(x))
    case Some(JNumber(n)) => Some(Some(n as real))
    case Some(_) => None
  }

  function ReadIdTable(root: JsonObject, f: Field): Option<map<int, string>>
  {
    match Lookup(root, Member(f))
    case None => Some(map[])
    case Some(JIdTable(m)) => if forall k | k in m :: IsInt32(k) then Some(m) else None
    case Some(_) => None
  }

  /** The subclass part of a document read as class `t`. */
  function ReadExtension(root: JsonObject, t: StateType): Option<Extension>
  {
    match t
    case UssdStateType => Some(Base)
    case AddTransactionStateType =>
      var txType := ReadOptionalText(root, TransactionType);
      var category := ReadOptionalText(root, TransactionCategory);
      var amount := ReadAmount(root, TransactionAmount);
      var description := ReadOptionalText(root, TransactionDescription);
      var page := ReadInt32(root, CategoryPage);
      if txType.Some? && category.Some? && amount.Some? && description.Some? && page.Some? then
        Some(AddTransactionFields(AddTransactionData(txType.value, category.value, amount.value, description.value, page.value)))
      else None
    case TransactionHistoryStateType =>
      var page := ReadInt32(root, TransactionPage);
      var selected := ReadOptionalText(root, SelectedTransactionId);
      var displayed := ReadIdTable(root, DisplayedTransactions);
      if page.Some? && selected.Some? && displayed.Some? then
        Some(TransactionHistoryFields(TransactionHistoryData(page.value, selected.value, displayed.value)))
      else None
  }

  /** A document read as class `t`: properties it does not declare are ignored, absent
      ones keep their initial values (a creation timestamp is the reading clock), and any
      value of the wrong type fails the whole read. */
  function Deserialize(root: JsonObject, t: StateType, now: int): Option<UssdState>
  {
    var phone := ReadText(root, PhoneNumber, "");
    var session := ReadOptionalText(root, SessionId);
    var menu := ReadText(root, CurrentMenu, MenuText(MainMenu));
    var step := ReadInt32(root, CurrentStep);
    var created := ReadTimestamp(root, CreatedAt, now);
    var updated := ReadTimestamp(root, LastUpdated, now);
    var ext := ReadExtension(root, t);
    if phone.Some? && session.Some? && menu.Some? && step.Some? && created.Some? && updated.Some? && ext.Some? then
      Some(UssdState(phone.value, session.value, menu.value, step.value, created.value, updated.value, ext.value))
    else None
  }

  /** A stored value read back: the state, or `None` when the text does not parse, the
      discriminator cannot be read, or the document does not fit the chosen class. */
  function ReadStoredValue(v: StoredValue, now: int): Option<UssdState>
  {
    match v
    case Unparsable => None
    case Json(root) =>
      match ResolveTargetType(root)
      case None => None
      case Some(t) => Deserialize(root, t, now)
  }

  /** The session stored for a caller, as a read at clock `now` returns it. */
  function ReadState(entries: map<string, StoredEntry>, phoneNumber: string, now: int): Option<UssdState>
  {
    var key := GetKey(phoneNumber);
    if key in entries then ReadStoredValue(entries[key].value, now) else None
  }

  /** The properties a state's class declares: the base ones, then the subclass's own. */
  function DeclaredFields(e: Extension): seq<Field>
  {
    [PhoneNumber, SessionId, CurrentMenu, CurrentStep, CreatedAt, LastUpdated]
    + match e
      case Base => []
      case AddTransactionFields(_) =>
        [TransactionType, TransactionCategory, TransactionAmount, TransactionDescription, CategoryPage]
      case TransactionHistoryFields(_) => [TransactionPage, SelectedTransactionId, DisplayedTransactions]
  }

  function OptionalText(s: Option<string>): JsonValue
  {
    if s.Some? then JString(s.value) else JNull
  }

  /** The serialized value of one property (null for a property the state's class does
      not declare, which is never written). */
  function FieldValue(st: UssdState, f: Field): JsonValue
  {
    match f
    case PhoneNumber => JString(st.phoneNumber)
    case SessionId => OptionalText(st.sessionId)
    case CurrentMenu => JString(st.currentMenu)
    case CurrentStep => JNumber(st.currentStep)
    case CreatedAt => JNumber(st.createdAt)
    case LastUpdated => JNumber(st.lastUpdated)
    case TransactionType => if st.ext.AddTransactionFields? then OptionalText(st.ext.add.transactionType) else JNull
    case TransactionCategory => if st.ext.AddTransactionFields? then OptionalText(st.ext.add.transactionCategory) else JNull
    case TransactionAmount =>
      if st.ext.AddTransactionFields? && st.ext.add.transactionAmount.Some? then JDecimal(st.ext.add.transactionAmount.value) else JNull
    case TransactionDescription => if st.ext.AddTransactionFields? then OptionalText(st.ext.add.transactionDescription) else JNull
    case CategoryPage => if st.ext.AddTransactionFields? then JNumber(st.ext.add.categoryPage) else JNull
    case TransactionPage => if st.ext.TransactionHistoryFields? then JNumber(st.ext.history.transactionPage) else JNull
    case SelectedTransactionId => if st.ext.TransactionHistoryFields? then OptionalText(st.ext.history.selectedTransactionId) else JNull
    case DisplayedTransactions => if st.ext.TransactionHistoryFields? then JIdTable(st.ext.history.displayedTransactions) else JNull
  }

  /** The properties `fields` of a state, in that order. */
  function Properties(st: UssdState, fields: seq<Field>): JsonObject
  {
    if fields == [] then [] else [JsonProperty(Member(fields[0]), FieldValue(st, fields[0]))] + Properties(st, fields[1..])
  }

  /** The serializer's document for a state: every property its class declares. */
  function Serialize(st: UssdState): JsonObject
  {
    Properties(st, DeclaredFields(st.ext))
  }

  function Discriminator(st: UssdState): JsonProperty
  {
    JsonProperty(StateTypeTag, JString(TypeName(st.ext)))
  }

  /** The document the store keeps: the discriminator, then the serializer's properties. */
  function TaggedDocument(st: UssdState): JsonObject
  {
    [Discriminator(st)] + Serialize(st)
  }

  /** The entries after a save: the caller's key holds the tagged document of the state,
      with its last-update time set to the saving clock, for eight minutes. */
  function Saved(entries: map<string, StoredEntry>, phoneNumber: string, st: UssdState, now: int): map<string, StoredEntry>
  {
    entries[GetKey(phoneNumber) := StoredEntry(Json(TaggedDocument(st.(lastUpdated := now))), SessionExpirationMinutes)]
  }

  /** The numbers of a state that the serializer writes as 32-bit integers. */
  predicate Int32Fields(st: UssdState)
  {
    && IsInt32(st.currentStep)
    && (st.ext.AddTransactionFields? ==> IsInt32(st.ext.add.categoryPage))
    && (st.ext.TransactionHistoryFields? ==> forall k | k in st.ext.history.displayedTransactions :: IsInt32(k))
    && (st.ext.TransactionHistoryFields? ==> IsInt32(st.ext.history.transactionPage))
  }

  /** In a list of serialized properties a state property is found exactly when it was
      written, with the value written, and the discriminator is never found. */
  lemma {:induction false} LookupProperties(st: UssdState, fields: seq<Field>, f: Field)
    ensures f in fields ==> Lookup(Properties(st, fields), Member(f)) == Some(FieldValue(st, f))
    ensures f !in fields ==> Lookup(Properties(st, fields), Member(f)) == None
    ensures Lookup(Properties(st, fields), StateTypeTag) == None
  {
    if fields != [] {
      LookupProperties(st, fields[1..], f);
      assert Properties(st, fields)[1..] == Properties(st, fields[1..]);
      assert f in fields ==> f == fields[0] || f in fields[1..];
    }
  }

  /** In the tagged document the discriminator names the state's class. */
  lemma LookupTaggedDiscriminator(st: UssdState)
    ensures Lookup(TaggedDocument(st), StateTypeTag) == Some(JString(TypeName(st.ext)))
  {
    assert TaggedDocument(st)[1..] == Serialize(st);
    LookupProperties(st, DeclaredFields(st.ext), PhoneNumber);
  }

  /** In the tagged document every declared property holds its serialized value. */
  lemma LookupTaggedField(st: UssdState, f: Field)
    requires f in DeclaredFields(st.ext)
    ensures Lookup(TaggedDocument(st), Member(f)) == Some(FieldValue(st, f))
  {
    assert TaggedDocument(st)[1..] == Serialize(st);
    LookupProperties(st, DeclaredFields(st.ext), f);
  }

  /** The discriminator of a saved state names a registered class, the one of its shape. */
  lemma RegistryKnowsEveryShape(e: Extension)
    ensures RegisteredType(TypeName(e)) == Some(TypeOf(e))
  {
  }

  /** The base properties of a saved document read back as written; the step fails the
      read only when it is not a 32-bit integer. */
  lemma BaseFieldsReadBack(st: UssdState, now: int)
    ensures var root := TaggedDocument(st);
      && ReadText(root, PhoneNumber, "") == Some(st.phoneNumber)
      && ReadOptionalText(root, SessionId) == Some(st.sessionId)
      && ReadText(root, CurrentMenu, MenuText(MainMenu)) == Some(st.currentMenu)
      && ReadInt32(root, CurrentStep) == (if IsInt32(st.currentStep) then Some(st.currentStep) else None)
      && ReadTimestamp(root, CreatedAt, now) == Some(st.createdAt)
      && ReadTimestamp(root, LastUpdated, now) == Some(st.lastUpdated)
  {
    BaseTextsReadBack(st);
    BaseNumbersReadBack(st, now);
  }

  lemma BaseTextsReadBack(st: UssdState)
    ensures var root := TaggedDocument(st);
      && ReadText(root, PhoneNumber, "") == Some(st.phoneNumber)
      && ReadOptionalText(root, SessionId) == Some(st.sessionId)
      && ReadText(root, CurrentMenu, MenuText(MainMenu)) == Some(st.currentMenu)
  {
    LookupTaggedField(st, PhoneNumber);
    LookupTaggedField(st, SessionId);
    LookupTaggedField(st, CurrentMenu);
  }

  lemma BaseNumbersReadBack(st: UssdState, now: int)
    ensures var root := TaggedDocument(st);
      && ReadInt32(root, CurrentStep) == (if IsInt32(st.currentStep) then Some(st.currentStep) else None)
      && ReadTimestamp(root, CreatedAt, now) == Some(st.createdAt)
      && ReadTimestamp(root, LastUpdated, now) == Some(st.lastUpdated)
  {
    LookupTaggedField(st, CurrentStep);
    LookupTaggedField(st, CreatedAt);
    LookupTaggedField(st, LastUpdated);
  }

  /** The add-transaction properties of a saved document read back as written. */
  lemma AddFieldsReadBack(st: UssdState)
    requires st.ext.AddTransactionFields?
    ensures var root := TaggedDocument(st);
      var a := st.ext.add;
      && ReadOptionalText(root, TransactionType) == Some(a.transactionType)
      && ReadOptionalText(root, TransactionCategory) == Some(a.transactionCategory)
      && ReadAmount(root, TransactionAmount) == Some(a.transactionAmount)
      && ReadOptionalText(root, TransactionDescription) == Some(a.transactionDescription)
      && ReadInt32(root, CategoryPage) == (if IsInt32(a.categoryPage) then Some(a.categoryPage) else None)
  {
    AddTextsReadBack(st);
    AddNumbersReadBack(st);
  }

  lemma AddTextsReadBack(st: UssdState)
    requires st.ext.AddTransactionFields?
    ensures var root := TaggedDocument(st);
      var a := st.ext.add;
      && ReadOptionalText(root, TransactionType) == Some(a.transactionType)
      && ReadOptionalText(root, TransactionCategory) == Some(a.transactionCategory)
      && ReadOptionalText(root, TransactionDescription) == Some(a.transactionDescription)
  {
    LookupTaggedField(st, TransactionType);
    LookupTaggedField(st, TransactionCategory);
    LookupTaggedField(st, TransactionDescription);
  }

  lemma AddNumbersReadBack(st: UssdState)
    requires st.ext.AddTransactionFields?
    ensures var root := TaggedDocument(st);
      var a := st.ext.add;
      && ReadAmount(root, TransactionAmount) == Some(a.transactionAmount)
      && ReadInt32(root, CategoryPage) == (if IsInt32(a.categoryPage) then Some(a.categoryPage) else None)
  {
    LookupTaggedField(st, TransactionAmount);
    LookupTaggedField(st, CategoryPage);
  }

  /** The history properties of a saved document read back as written. */
  lemma HistoryFieldsReadBack(st: UssdState)
    requires st.ext.TransactionHistoryFields?
    ensures var root := TaggedDocument(st);
      var h := st.ext.history;
      && ReadInt32(root, TransactionPage) == (if IsInt32(h.transactionPage) then Some(h.transactionPage) else None)
      && ReadOptionalText(root, SelectedTransactionId) == Some(h.selectedTransactionId)
      && ReadIdTable(root, DisplayedTransactions) ==
           (if forall k | k in h.displayedTransactions :: IsInt32(k) then Some(h.displayedTransactions) else None)
  {
    LookupTaggedField(st, TransactionPage);
    LookupTaggedField(st, SelectedTransactionId);
    LookupTaggedField(st, DisplayedTransactions);
  }

  /** The subclass properties of a saved document read back as written, under the class
      of the state's shape. */
  lemma ExtensionReadsBack(st: UssdState)
    ensures ReadExtension(TaggedDocument(st), TypeOf(st.ext)) ==
      if Int32Fields(st.(currentStep := 0)) then Some(st.ext) else None
  {
    if st.ext.AddTransactionFields? {
      AddFieldsReadBack(st);
    } else if st.ext.TransactionHistoryFields? {
      HistoryFieldsReadBack(st);
    }
  }

  /** Reading back a saved document gives the state as it was saved, shape and fields
      alike; the read fails only when a number the serializer writes as a 32-bit integer
      is out of that range, which a state of the source can never hold. */
  lemma TaggedDocumentRoundTrip(st: UssdState, now: int)
    ensures ReadStoredValue(Json(TaggedDocument(st)), now) == if Int32Fields(st) then Some(st) else None
  {
    LookupTaggedDiscriminator(st);
    RegistryKnowsEveryShape(st.ext);
    assert ResolveTargetType(TaggedDocument(st)) == Some(TypeOf(st.ext));
    BaseFieldsReadBack(st, now);
    ExtensionReadsBack(st);
  }

  /** Discriminator resolution: an absent, null, empty or unregistered name reads the base
      class; each registered name reads its own class; a value that is not a string fails
      the read. */
  lemma DiscriminatorRule(root: JsonObject)
    ensures var tag := Lookup(root, StateTypeTag);
      && (tag.None? || tag == Some(JNull) ==> ResolveTargetType(root) == Some(UssdStateType))
      && (tag == Some(JString("")) ==> ResolveTargetType(root) == Some(UssdStateType))
      && (tag.Some? && tag.value.JString? && RegisteredType(tag.value.text).None? ==> ResolveTargetType(root) == Some(UssdStateType))
      && (forall e :: tag == Some(JString(TypeName(e))) ==> ResolveTargetType(root) == Some(TypeOf(e)))
      && (tag.Some? && !tag.value.JString? && !tag.value.JNull? <==> ResolveTargetType(root).None?)
  {
  }

  /** The key-value store holding the sessions. */
  class SessionStore {
    var entries: map<string, StoredEntry>

    constructor ()
      ensures entries == map[]
    {
      entries := map[];
    }

    /** The caller's session, or `None` when nothing usable is stored. */
    method GetState(phoneNumber: string, now: int) returns (r: Option<UssdState>)
      ensures r == ReadState(entries, phoneNumber, now)
      ensures GetKey(phoneNumber) !in entries ==> r.None?
    {
      var key := GetKey(phoneNumber);
      if key !in entries {
        return None;
      }
      match entries[key].value
      case Unparsable =>
        r := None;
      case Json(root) =>
        var t := ResolveTargetType(root);
        if t.None? {
          return None;
        }
        r := Deserialize(root, t.value, now);
    }

    /** Stamps the state with the saving clock and writes its tagged document: the
        discriminator first, then each serialized property in turn. */
    method SaveState(phoneNumber: string, state: UssdState, now: int) returns (saved: UssdState)
      modifies this
      ensures saved == state.(lastUpdated := now)
      ensures entries == Saved(old(entries), phoneNumber, state, now)
    {
      saved := state.(lastUpdated := now);
      var props := Serialize(saved);
      var doc := [Discriminator(saved)];
      for i := 0 to |props|
        invariant doc == [Discriminator(saved)] + props[..i]
      {
        doc := doc + [props[i]];
      }
      assert props[..|props|] == props;
      entries := entries[GetKey(phoneNumber) := StoredEntry(Json(doc), SessionExpirationMinutes)];
    }

    /** Deletes the caller's session. */
    method ClearState(phoneNumber: string)
      modifies this
      ensures entries == old(entries) - {GetKey(phoneNumber)}
    {
      entries := entries - {GetKey(phoneNumber)};
    }
  }

  /** After a save the caller's session reads back as saved, stamped with the saving
      clock, and every other caller's session reads as before. */
  lemma SaveThenRead(entries: map<string, StoredEntry>, phoneNumber: string, st: UssdState, now: int, other: string, later: int)
    ensures var s := st.(lastUpdated := now);
      ReadState(Saved(entries, phoneNumber, st, now), phoneNumber, later) == if Int32Fields(s) then Some(s) else None
    ensures other != phoneNumber ==>
      ReadState(Saved(entries, phoneNumber, st, now), other, later) == ReadState(entries, other, later)
  {
    TaggedDocumentRoundTrip(st.(lastUpdated := now), later);
    GetKeyInjective(phoneNumber, other);
  }

  /** After a clear nothing is read for the caller, and every other caller's session reads
      as before. */
  lemma ClearThenRead(entries: map<string, StoredEntry>, phoneNumber: string, other: string, later: int)
    ensures ReadState(entries - {GetKey(phoneNumber)}, phoneNumber, later).None?
    ensures other != phoneNumber ==>
      ReadState(entries - {GetKey(phoneNumber)}, other, later) == ReadState(entries, other, later)
  {
    GetKeyInjective(phoneNumber, other);
  }
}
