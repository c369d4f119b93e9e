/**
 * The session slice of the store: the signed-in user, the login flag and the
 * token, kept in step with the browser's local storage so that a reload
 * restores the session. JSON encoding and decoding are parameters.
 */
module UserSlice {
  import opened Js

  /** The browser's local storage: key to stored text. */
  class LocalStorage {
    var items: map<string, string>

    constructor (initial: map<string, string>)
      ensures items == initial
    {
      items := initial;
    }

    /** `getItem`: the stored text, `None` for `null`. */
    function GetItem(key: string): (r: Option<string>)
      reads this
      ensures r.Some? <==> key in items
      ensures r.Some? ==> r.value == items[key]
    {
      if key in items then Some(items[key]) else None
    }

    /** `setItem`. */
    method SetItem(key: string, value: string)
      modifies this
      ensures items == old(items)[key := value]
    {
      items := items[key := value];
    }

    /** `removeItem`. */
    method RemoveItem(key: string)
      modifies this
      ensures items == old(items) - {key}
    {
      items := items - {key};
    }
  }

  /** What `JSON.parse` made of the stored user: an object, `null`, or an
      exception. */
  datatype ParseResult = ParseError | Parsed(user: Option<JsObject>)

  /** The session as the rest of the client reads it. */
  datatype Session = Session(user: Option<JsObject>, isLoggedIn: bool, token: Value)

  const LoggedOut := Session(None, false, Missing)

  /** The session and the storage together. */
  datatype World = World(session: Session, store: map<string, string>)

  /** `getInitialState`: with a non-empty stored token and user, the parsed user
      is signed in with the stored token; a user that does not parse is
      removed together with the token; otherwise the session is signed out and
      the storage untouched. */
  function InitialWorld(store: map<string, string>, parse: string -> ParseResult): (r: World)
    ensures r.session.isLoggedIn <==>
              && "token" in store && store["token"] != ""
              && "userData" in store && store["userData"] != ""
              && parse(store["userData"]).Parsed?
    ensures r.session.isLoggedIn ==>
              r.session == Session(parse(store["userData"]).user, true, Text(store["token"])) && r.store == store
    ensures !r.session.isLoggedIn ==> r.session == LoggedOut
    ensures r.store == store || r.store == store - {"token", "userData"}
    ensures r.store != store ==> !r.session.isLoggedIn && "userData" in store && parse(store["userData"]).ParseError?
  {
    var token := if "token" in store then store["token"] else "";
    var userData := if "userData" in store then store["userData"] else "";
    if token != "" && userData != "" then
      match parse(userData)
      case Parsed(user) => World(Session(user, true, Text(token)), store)
      case ParseError => World(LoggedOut, store - {"token"} - {"userData"})
    else
      World(LoggedOut, store)
  }

  /** `loginSuccess`: signed in as the payload with the payload's token; the
      token is stored only when it is truthy, the user always. */
  function LoginWorld(w: World, payload: JsObject, stringify: JsObject -> string): (r: World)
    ensures r.session == Session(Some(payload), true, Get(payload, "token"))
    ensures "userData" in r.store && r.store["userData"] == stringify(payload)
    ensures Truthy(Get(payload, "token")) ==> "token" in r.store && r.store["token"] == ToText(Get(payload, "token"))
    ensures !Truthy(Get(payload, "token")) ==> r.store == w.store["userData" := stringify(payload)]
    ensures forall k :: k in w.store && k != "token" && k != "userData" ==> k in r.store && r.store[k] == w.store[k]
    ensures r.store.Keys == w.store.Keys + {"userData"} + (if Truthy(Get(payload, "token")) then {"token"} else {})
  {
    var token := Get(payload, "token");
    var withToken := if Truthy(token) then w.store["token" := ToText(token)] else w.store;
    World(Session(Some(payload), true, token), withToken["userData" := stringify(payload)])
  }

  /** The keys `logout` removes. */
  const SessionKeys: set<string> := {"token", "userData", "mockOrders"}

  /** `logout`: signed out; exactly the token, the user and the cached mock
      orders leave the storage. */
  function LogoutWorld(w: World): (r: World)
    ensures r.session == LoggedOut
    ensures forall k :: k in r.store <==> k in w.store && k !in SessionKeys
    ensures forall k :: k in r.store ==> r.store[k] == w.store[k]
  {
    World(LoggedOut, w.store - SessionKeys)
  }

  /** `updateUserInfo`: without a user nothing changes; otherwise the fields
      of the payload replace or extend the user's, and the others are kept.
      The storage is not touched. */
  function UpdateSession(s: Session, payload: JsObject): (r: Session)
    ensures s.user.None? ==> r == s
    ensures r.isLoggedIn == s.isLoggedIn && r.token == s.token
    ensures s.user.Some? ==>
              && r.user.Some?
              && r.user.value.Keys == s.user.value.Keys + payload.Keys
              && (forall k :: k in payload ==> r.user.value[k] == payload[k])
              && (forall k :: k in s.user.value && k !in payload ==> r.user.value[k] == s.user.value[k])
  {
    match s.user
    case None => s
    case Some(u) => s.(user := Some(u + payload))
  }

  /** The session slice, updated in place by its reducers. */
  class UserState {
    var user: Option<JsObject>
    var isLoggedIn: bool
    var token: Value

    /** The session these fields hold. */
    function View(): Session
      reads this
    {
      Session(user, isLoggedIn, token)
    }

    /** The initial state, read from the storage at start-up. */
    constructor (storage: LocalStorage, parse: string -> ParseResult)
      modifies storage
      ensures World(View(), storage.items) == InitialWorld(old(storage.items), parse)
    {
      var token := storage.GetItem("token");
      var userData := storage.GetItem("userData");
      var stored := false;
      if token.Some? && token.value != "" && userData.Some? && userData.value != "" {
        var parsed := parse(userData.value);
        if parsed.Parsed? {
          user, isLoggedIn, this.token := parsed.user, true, Text(token.value);
          stored := true;
        } else {
          storage.RemoveItem("token");
          storage.RemoveItem("userData");
        }
      }
      if !stored {
        user, isLoggedIn, this.token := None, false, Missing;
      }
    }

    /** `loginSuccess`. */
    method LoginSuccess(payload: JsObject, storage: LocalStorage, stringify: JsObject -> string)
      modifies this, storage
      ensures World(View(), storage.items) == LoginWorld(World(old(View()), old(storage.items)), payload, stringify)
    {
      isLoggedIn := true;
      user := Some(payload);
      token := Get(payload, "token");
      if Truthy(Get(payload, "token")) {
        storage.SetItem("token", ToText(Get(payload, "token")));
      }
      storage.SetItem("userData", stringify(payload));
    }

    /** `logout`. */
    method Logout(storage: LocalStorage)
      modifies this, storage
      ensures World(View(), storage.items) == LogoutWorld(World(old(View()), old(storage.items)))
    {
      isLoggedIn := false;
      user := None;
      token := Missing;
      storage.RemoveItem("token");
      storage.RemoveItem("userData");
      storage.RemoveItem("mockOrders");
    }

    /** `updateUserInfo`. */
    method UpdateUserInfo(payload: JsObject)
      modifies this
      ensures View() == UpdateSession(old(View()), payload)
    {
      if user.Some? {
        user := Some(user.value + payload);
      }
    }
  }

  /** A reload after a login restores the same user, provided the user survives
      a round trip through JSON and carries a truthy token; the token comes back
      as text. */
  lemma ReloadRestoresLogin(w: World, payload: JsObject, stringify: JsObject -> string, parse: string -> ParseResult)
    requires Truthy(Get(payload, "token"))
    requires stringify(payload) != ""
    requires parse(stringify(payload)) == Parsed(Some(payload))
    ensures var after := LoginWorld(w, payload, stringify);
            InitialWorld(after.store, parse) == World(Session(Some(payload), true, Text(ToText(Get(payload, "token")))), after.store)
  {
    TextOfTruthy(Get(payload, "token"));
  }

  /** A login whose payload has no token keeps whatever token the storage
      already held, so a reload signs the new user in with the old token. */
  lemma StaleTokenSurvivesLogin(w: World, payload: JsObject, stringify: JsObject -> string, parse: string -> ParseResult)
    requires !Truthy(Get(payload, "token"))
    requires "token" in w.store && w.store["token"] != ""
    requires stringify(payload) != ""
    requires parse(stringify(payload)) == Parsed(Some(payload))
    ensures var after := LoginWorld(w, payload, stringify);
            && after.session.token == Get(payload, "token")
            && InitialWorld(after.store, parse).session == Session(Some(payload), true, Text(w.store["token"]))
  {
  }

  /** After a logout a reload starts signed out, whatever the storage held. */
  lemma ReloadAfterLogout(w: World, parse: string -> ParseResult)
    ensures InitialWorld(LogoutWorld(w).store, parse) == World(LoggedOut, LogoutWorld(w).store)
  {
  }

  /** Logging out twice is the same as logging out once. */
  lemma LogoutIdempotent(w: World)
    ensures LogoutWorld(LogoutWorld(w)) == LogoutWorld(w)
  {
  }

  /** Merging a payload twice is the same as merging it once. */
  lemma UpdateIdempotent(s: Session, payload: JsObject)
    ensures UpdateSession(UpdateSession(s, payload), payload) == UpdateSession(s, payload)
  {
    if s.user.Some? {
      var u := s.user.value;
      assert (u + payload) + payload == u + payload;
    }
  }

  /** A stored user that is JSON `null` yields a session flagged as signed in
      but without a user. */
  lemma NullUserIsLoggedInWithoutUser(store: map<string, string>, parse: string -> ParseResult)
    requires "token" in store && store["token"] != ""
    requires "userData" in store && store["userData"] != ""
    requires parse(store["userData"]) == Parsed(None)
    ensures InitialWorld(store, parse).session.isLoggedIn
    ensures InitialWorld(store, parse).session.user.None?
  {
  }
}
