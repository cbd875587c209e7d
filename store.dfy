/** The client's global store (`store.js`): the initial state, built from what
    `localStorage` holds, and the reducer, a pure `(store, action) -> store`
    function where every action overwrites a fixed set of fields. */
module Store {
  import opened Values
  import opened Text

  /** The store object. Every field holds whatever JavaScript value was put there. */
  datatype StoreState = StoreState(
    message: Value,
    token: Value,
    user: Value,
    role: Value,
    services: Value,
    barbers: Value,
    myAppointments: Value,
    loading: Value,
    error: Value,
    backendUrl: Value)

  /** The names of the store's fields, to talk about which of them an action changes. */
  datatype Field =
    | Message | Token | User | Role | Services | Barbers | MyAppointments | Loading | Error | BackendUrl

  function FieldOf(s: StoreState, f: Field): Value
  {
    match f
    case Message => s.message
    case Token => s.token
    case User => s.user
    case Role => s.role
    case Services => s.services
    case Barbers => s.barbers
    case MyAppointments => s.myAppointments
    case Loading => s.loading
    case Error => s.error
    case BackendUrl => s.backendUrl
  }

  /** `t` differs from `s` at most in the fields `fs`. */
  predicate OnlyChanged(s: StoreState, t: StoreState, fs: set<Field>)
  {
    forall f :: f !in fs ==> FieldOf(s, f) == FieldOf(t, f)
  }

  /** Two stores that agree on every field are the same store. */
  lemma FieldsDetermineStore(s: StoreState, t: StoreState)
    requires OnlyChanged(s, t, {})
    ensures s == t
  {
    assert FieldOf(s, Message) == FieldOf(t, Message) && FieldOf(s, Token) == FieldOf(t, Token);
    assert FieldOf(s, User) == FieldOf(t, User) && FieldOf(s, Role) == FieldOf(t, Role);
    assert FieldOf(s, Services) == FieldOf(t, Services) && FieldOf(s, Barbers) == FieldOf(t, Barbers);
    assert FieldOf(s, MyAppointments) == FieldOf(t, MyAppointments) && FieldOf(s, Loading) == FieldOf(t, Loading);
    assert FieldOf(s, Error) == FieldOf(t, Error) && FieldOf(s, BackendUrl) == FieldOf(t, BackendUrl);
  }

  const BackendUrlValue: string := "https://bug-free-goggles-5gpg7pwgjqwrf4vpq-3001.app.github.dev"

  /** A character no JSON text can begin with: a letter other than the first
      letters of `true`, `false` and `null` (a JSON text begins with white
      space, `{`, `[`, `"`, `-`, a digit or one of those three words). */
  predicate BareWordStart(c: char)
  {
    (('a' <= c <= 'z') || ('A' <= c <= 'Z')) && c != 't' && c != 'f' && c != 'n'
  }

  /** A string `JSON.stringify` writes as its characters between two quotes:
      no quote, no backslash and no control character. */
  predicate PlainJsonString(s: string)
  {
    forall i :: 0 <= i < |s| ==> s[i] != '"' && s[i] != '\\' && s[i] >= ' '
  }

  function Quoted(s: string): string
  {
    "\"" + s + "\""
  }

  /** What the model uses of `JSON.parse`, where `None` stands for the
      SyntaxError it throws: text beginning with a bare word is rejected,
      `"null"` is `null`, and a quoted plain string is that string. */
  ghost predicate JsonParser(parse: string -> Option<Value>)
  {
    && (forall t :: t != "" && BareWordStart(t[0]) ==> parse(t).None?)
    && parse("null") == Some(Null)
    && (forall s :: PlainJsonString(s) ==> parse(Quoted(s)) == Some(Str(s)))
  }

  /** A parser for `null` and plain quoted strings only, rejecting all other
      text: it shows that `JsonParser` can be met. */
  function ScalarParser(t: string): Option<Value>
  {
    if t == "null" then Some(Null)
    else if |t| >= 2 && t[0] == '"' && t[|t| - 1] == '"' && PlainJsonString(t[1..|t| - 1]) then
      Some(Str(t[1..|t| - 1]))
    else None
  }

  lemma ScalarParserIsJsonParser()
    ensures JsonParser(ScalarParser)
  {
    forall s | PlainJsonString(s) ensures ScalarParser(Quoted(s)) == Some(Str(s)) {
      var t := Quoted(s);
      assert t[1..|t| - 1] == s;
    }
  }

  /** `JSON.parse(localStorage.getItem(key) || "null")`: `null` when nothing (or
      the empty string) is stored (`JSON.parse("null")`), otherwise what the JSON
      parser `parse` makes of the stored text; `None` where `parse` throws. */
  function StoredJson(item: Option<string>, parse: string -> Option<Value>): (v: Option<Value>)
    ensures item.None? || item == Some("") ==> v == Some(Null)
    ensures item.Some? && item.value != "" ==> v == parse(item.value)
    ensures v.None? <==> item.Some? && item.value != "" && parse(item.value).None?
  {
    match item
    case None => Some(Null)
    case Some(text) => if text == "" then Some(Null) else parse(text)
  }

  /** `initialStore()`, given what `localStorage` holds under "access_token",
      "user" and "role"; `None` where one of its two `JSON.parse` calls throws. */
  function InitialStore(accessToken: Option<string>, user: Option<string>, role: Option<string>,
                        parse: string -> Option<Value>): (s: Option<StoreState>)
    ensures s.None? <==> StoredJson(user, parse).None? || StoredJson(role, parse).None?
    ensures s.Some? ==>
              && (accessToken.None? || accessToken == Some("") ==> s.value.token == Str(""))
              && (accessToken.Some? && accessToken.value != "" ==> s.value.token == Str(accessToken.value))
              && Some(s.value.user) == StoredJson(user, parse) && Some(s.value.role) == StoredJson(role, parse)
              && s.value.services == Arr([]) && s.value.barbers == Arr([]) && s.value.myAppointments == Arr([])
              && s.value.loading == Bool(false) && s.value.error == Null && s.value.message == Null
              && s.value.backendUrl == Str(BackendUrlValue)
  {
    var token := match accessToken
      case None => Str("")
      case Some(t) => JsOr(Str(t), Str(""));
    match (StoredJson(user, parse), StoredJson(role, parse))
    case (Some(u), Some(r)) =>
      Some(StoreState(Null, token, u, r, Arr([]), Arr([]), Arr([]), Bool(false), Null, Str(BackendUrlValue)))
    case _ => None
  }

  /** The text the login page stores under "role" (Login.jsx:67):
      `localStorage.setItem` keeps `String(role)`, the bare role name. */
  function RoleItemAsWritten(role: Value): (item: string)
    ensures role.Str? ==> item == role.s
    ensures role == Null ==> item == "null"
  {
    JsString(role)
  }

  /** As written, once a login has stored a role name, the next `initialStore()`
      throws: the bare word is not JSON. */
  lemma BareRoleBreaksInitialStore(accessToken: Option<string>, user: Option<string>, role: string,
                                   parse: string -> Option<Value>)
    requires JsonParser(parse)
    requires role in {"cliente", "barbero", "admin"}
    ensures InitialStore(accessToken, user, Some(RoleItemAsWritten(Str(role))), parse).None?
  {
    assert BareWordStart(role[0]);
  }

  /** The text the login page evidently meant to store: `JSON.stringify(role)`,
      which `JSON.parse` reads back. */
  function RoleItemIntended(role: Value): (item: string)
    requires role == Null || (role.Str? && PlainJsonString(role.s))
    ensures role.Str? ==> item == Quoted(role.s)
    ensures role == Null ==> item == "null"
  {
    if role.Str? then Quoted(role.s) else "null"
  }

  /** With the role stored as JSON, `initialStore()` succeeds and restores the
      role of the login, whenever the stored user can be read. */
  lemma QuotedRoleRestores(accessToken: Option<string>, user: Option<string>, role: Value,
                           parse: string -> Option<Value>)
    requires JsonParser(parse)
    requires role == Null || (role.Str? && PlainJsonString(role.s))
    requires StoredJson(user, parse).Some?
    ensures var s := InitialStore(accessToken, user, Some(RoleItemIntended(role)), parse);
            s.Some? && s.value.role == role
  {
    assert RoleItemIntended(role) != "";
  }

  /** The three role names are plain JSON strings, so the intended item covers
      every role a login can store. */
  lemma RoleNamesArePlain(role: string)
    requires role in {"cliente", "barbero", "admin"}
    ensures PlainJsonString(role)
  {
  }

  /** A dispatched action; `storeReducer(store)` without an action sees `{}`, whose
      type and payload are both `undefined`. */
  datatype Action = Action(kind: Value, payload: Value)

  const NoAction := Action(Undefined, Undefined)

  /** The action types that write exactly the payload into one field, and that field. */
  function SetterField(kind: string): (f: Option<Field>)
  {
    if kind == "set_hello" then Some(Message)
    else if kind == "set_loading" then Some(Loading)
    else if kind == "set_error" then Some(Error)
    else if kind == "set_token" then Some(Token)
    else if kind == "set_services" then Some(Services)
    else if kind == "set_barbers" then Some(Barbers)
    else if kind == "set_my_appointments" then Some(MyAppointments)
    else None
  }

  /** Every action type the reducer has a case for. */
  predicate Handled(kind: Value)
  {
    kind.Str? && (SetterField(kind.s).Some? || kind.s in {"clear_error", "set_user", "logout"})
  }

  /** The store with `f` set to `v`. */
  function WithField(s: StoreState, f: Field, v: Value): (t: StoreState)
    ensures FieldOf(t, f) == v && OnlyChanged(s, t, {f})
  {
    match f
    case Message => s.(message := v)
    case Token => s.(token := v)
    case User => s.(user := v)
    case Role => s.(role := v)
    case Services => s.(services := v)
    case Barbers => s.(barbers := v)
    case MyAppointments => s.(myAppointments := v)
    case Loading => s.(loading := v)
    case Error => s.(error := v)
    case BackendUrl => s.(backendUrl := v)
  }

  /** `storeReducer(store, action)`; `None` where it throws, which only `set_user`
      does, on a `null` or `undefined` payload. */
  function Reduce(store: StoreState, action: Action): (r: Option<StoreState>)
    ensures r.None? <==> action.kind == Str("set_user") && (action.payload == Null || action.payload == Undefined)
  {
    var kind, payload := action.kind, action.payload;
    if kind == Str("set_hello") then Some(store.(message := payload))
    else if kind == Str("set_loading") then Some(store.(loading := payload))
    else if kind == Str("set_error") then Some(store.(error := payload))
    else if kind == Str("clear_error") then Some(store.(error := Null))
    else if kind == Str("set_token") then Some(store.(token := payload))
    else if kind == Str("set_user") then
      match (Prop(payload, "user_id"), Prop(payload, "role"))
      case (Some(id), Some(role)) => Some(store.(user := id, role := role))
      case _ => None
    else if kind == Str("logout") then
      Some(store.(token := Str(""), user := Null, services := Arr([]), barbers := Arr([]),
                  myAppointments := Arr([]), loading := Bool(false), error := Null))
    else if kind == Str("set_services") then Some(store.(services := payload))
    else if kind == Str("set_barbers") then Some(store.(barbers := payload))
    else if kind == Str("set_my_appointments") then Some(store.(myAppointments := payload))
    else Some(store)
  }

  /** An action type the reducer has no case for, or no action at all, leaves the
      store as it is. */
  lemma UnknownActionIsIdentity(s: StoreState, a: Action)
    requires !Handled(a.kind)
    ensures Reduce(s, a) == Some(s)
  {
  }

  lemma NoActionIsIdentity(s: StoreState)
    ensures Reduce(s, NoAction) == Some(s)
  {
    UnknownActionIsIdentity(s, NoAction);
  }

  /** Each setter writes its payload into its one field and changes nothing else. */
  lemma SetterOverwritesOneField(s: StoreState, kind: string, payload: Value)
    requires SetterField(kind).Some?
    ensures var f := SetterField(kind).value;
            Reduce(s, Action(Str(kind), payload)) == Some(WithField(s, f, payload))
  {
  }

  /** `clear_error` empties the error and nothing else. */
  lemma ClearErrorOnlyClearsError(s: StoreState)
    ensures var r := Reduce(s, Action(Str("clear_error"), Undefined));
            r.Some? && r.value.error == Null && OnlyChanged(s, r.value, {Error})
  {
  }

  /** `clear_error` ignores its payload. */
  lemma ClearErrorIgnoresPayload(s: StoreState, p: Value, q: Value)
    ensures Reduce(s, Action(Str("clear_error"), p)) == Reduce(s, Action(Str("clear_error"), q))
  {
  }

  const Logout := Action(Str("logout"), Undefined)

  /** `logout` resets the session fields and keeps `role`, `message` and
      `backendUrl`; whatever its payload. */
  lemma LogoutResets(s: StoreState, payload: Value)
    ensures var r := Reduce(s, Action(Str("logout"), payload));
            && r.Some?
            && r.value.token == Str("") && r.value.user == Null
            && r.value.services == Arr([]) && r.value.barbers == Arr([]) && r.value.myAppointments == Arr([])
            && r.value.loading == Bool(false) && r.value.error == Null
            && OnlyChanged(s, r.value, {Token, User, Services, Barbers, MyAppointments, Loading, Error})
            && r.value.role == s.role && r.value.message == s.message && r.value.backendUrl == s.backendUrl
  {
  }

  /** Logging out twice is logging out once. */
  lemma LogoutIdempotent(s: StoreState)
    ensures Reduce(s, Logout).Some?
    ensures Reduce(Reduce(s, Logout).value, Logout) == Reduce(s, Logout)
  {
  }

  /** `set_user` keeps `payload.user_id` as the user and `payload.role` as the
      role; it throws on a `null` or `undefined` payload. */
  lemma SetUserStoresIdAndRole(s: StoreState, payload: Value)
    requires payload != Null && payload != Undefined
    ensures var r := Reduce(s, Action(Str("set_user"), payload));
            && r.Some?
            && Some(r.value.user) == Prop(payload, "user_id")
            && Some(r.value.role) == Prop(payload, "role")
            && OnlyChanged(s, r.value, {User, Role})
  {
  }

  /** `set_user` reads nothing of its payload but `user_id` and `role`: two
      payloads that agree on those give the same store, so an `is_admin` (or any
      other field) in the payload is dropped. */
  lemma SetUserIgnoresOtherFields(s: StoreState, p: Value, q: Value)
    requires Prop(p, "user_id") == Prop(q, "user_id") && Prop(p, "role") == Prop(q, "role")
    ensures Reduce(s, Action(Str("set_user"), p)) == Reduce(s, Action(Str("set_user"), q))
  {
  }
}
