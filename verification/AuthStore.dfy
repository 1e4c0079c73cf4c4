/**
 Restoring the session when the application loads: `bootstrap` and `loadLegacySession` of
 frontend/src/store/auth.ts.  Replies of the server and the parsing of JSON are parameters.
 */
module AuthStore {
  import opened Text
  import opened Wrappers

  datatype User = User(id: string, profile: string)

  type Storage = map<string, string>

  datatype State = State(token: Option<string>, user: Option<User>, hydrated: bool, storage: Storage)

  /** What `getProfile` does: on success it may have replaced the token by a refreshed one on the way. */
  datatype Profile = Got(me: User, refreshed: Option<string>) | NoProfile

  /**
   The outside world during one bootstrap: whether the page is the OAuth callback, the access token
   of a silent refresh (absent when it fails or brings none), the profile, and how users are
   written to and read from JSON.
   */
  datatype World = World(onCallback: bool, refresh: Option<string>, profile: Profile,
                         parse: string -> Option<User>, render: User -> string)

  predicate Blank(s: string) {
    Trim(s, JsSpace) == ""
  }

  /** `token?.trim()` is not empty. */
  predicate Present(token: Option<string>) {
    token.Some? && !Blank(token.value)
  }

  predicate HasAuthSession(user: Option<User>, token: Option<string>) {
    Present(token) && user.Some? && !Blank(user.value.id)
  }

  predicate Truthy(s: Option<string>) {
    s.Some? && s.value != ""
  }

  function Item(storage: Storage, key: string): Option<string> {
    if key in storage then Some(storage[key]) else None
  }

  // ---------------------------------------------------------------- the steps as functions

  function ParsedUser(parse: string -> Option<User>, storage: Storage): Option<User> {
    var s := Item(storage, "user");
    if Truthy(s) then parse(s.value) else None
  }

  /** The user of an earlier version, kept only with an id and a token. */
  function LegacyUser(parse: string -> Option<User>, storage: Storage): Option<User> {
    var user := ParsedUser(parse, storage);
    if user.Some? && !Blank(user.value.id) && Present(Item(storage, "token")) then user else None
  }

  function SweptStorage(parse: string -> Option<User>, storage: Storage): Storage {
    (storage - (if ParsedUser(parse, storage).Some? && LegacyUser(parse, storage).None? then {"user"} else {}))
    - {"refresh_token"} - (if Truthy(Item(storage, "token")) then {"token"} else {})
  }

  function AfterLegacy(s: State, w: World): State {
    if Present(s.token) then s
    else
      var token, user := Item(s.storage, "token"), LegacyUser(w.parse, s.storage);
      var swept := s.(storage := SweptStorage(w.parse, s.storage));
      if Truthy(token) || user.Some? then swept.(token := token, user := user) else swept
  }

  function AfterRefresh(s: State, w: World): State {
    if !Present(s.token) && !w.onCallback && Truthy(w.refresh) then s.(token := w.refresh) else s
  }

  function AfterProfile(s: State, w: World): State {
    if !Present(s.token) || s.user.Some? then s
    else match w.profile
      case NoProfile => s.(token := None, user := None)
      case Got(me, refreshed) =>
        s.(token := if refreshed.Some? then refreshed else s.token, user := Some(me),
           storage := s.storage["user" := w.render(me)])
  }

  function Bootstrapped(s: State, w: World): State {
    AfterProfile(AfterRefresh(AfterLegacy(s, w), w), w).(hydrated := true)
  }

  // ---------------------------------------------------------------- the store

  class Store {
    var token: Option<string>
    var user: Option<User>
    var hydrated: bool
    var storage: Storage

    constructor (storage: Storage)
      ensures View() == State(None, None, false, storage)
    {
      token, user, hydrated, this.storage := None, None, false, storage;
    }

    function View(): State
      reads this
    {
      State(token, user, hydrated, storage)
    }

    /** `loadLegacySession`: whatever can be migrated, and local storage swept of secrets. */
    method LoadLegacySession(parse: string -> Option<User>) returns (legacyToken: Option<string>, legacyUser: Option<User>)
      modifies `storage
      ensures legacyToken == Item(old(storage), "token") && legacyUser == LegacyUser(parse, old(storage))
      ensures storage == SweptStorage(parse, old(storage))
    {
      DistinctKeys();
      legacyToken := Item(storage, "token");
      var s := Item(storage, "user");
      legacyUser := None;
      if Truthy(s) {
        legacyUser := parse(s.value);
      }
      if legacyUser.Some? && Blank(legacyUser.value.id) {
        legacyUser := None;
        storage := storage - {"user"};
      }
      if !Present(legacyToken) && legacyUser.Some? {
        storage := storage - {"user"};
        legacyUser := None;
      }
      storage := storage - {"refresh_token"};
      if Truthy(legacyToken) {
        storage := storage - {"token"};
      }
      assert storage == SweptStorage(parse, old(storage));
    }

    /** Step 1: never over a session that is already in memory. */
    method MigrateLegacy(w: World)
      modifies `token, `user, `storage
      ensures View() == AfterLegacy(old(View()), w)
    {
      if !Present(token) {
        var legacyToken, legacyUser := LoadLegacySession(w.parse);
        if Truthy(legacyToken) || legacyUser.Some? {
          token, user := legacyToken, legacyUser;
        }
      }
    }

    /** Step 2: a silent refresh, except on the OAuth callback; `called` is whether the cookie was spent. */
    method SilentRefresh(w: World) returns (called: bool)
      modifies `token
      ensures View() == AfterRefresh(old(View()), w)
      ensures called == (!Present(old(token)) && !w.onCallback)
    {
      called := !Present(token) && !w.onCallback;
      if called && Truthy(w.refresh) {
        token := w.refresh;
      }
    }

    /** Step 3: the profile of a token without a user; failing that, nobody is signed in. */
    method RestoreProfile(w: World)
      modifies `token, `user, `storage
      ensures View() == AfterProfile(old(View()), w)
    {
      if Present(token) && user.None? {
        match w.profile {
          case Got(me, refreshed) =>
            if refreshed.Some? {
              token := refreshed;
            }
            storage := storage["user" := w.render(me)];
            user := Some(me);
          case NoProfile =>
            token, user := None, None;
        }
      }
    }

    /** None of the three steps may touch `hydrated`; it is set when they are over. */
    method Bootstrap(w: World) returns (called: bool)
      modifies this
      ensures View() == Bootstrapped(old(View()), w)
      ensures called ==> !w.onCallback && !Present(old(token))
    {
      MigrateLegacy(w);
      called := SilentRefresh(w);
      RestoreProfile(w);
      hydrated := true;
    }
  }

  lemma DistinctKeys()
    ensures "user" != "token" && "user" != "refresh_token" && "token" != "refresh_token"
  {
    assert |"user"| != |"token"| && |"user"| != |"refresh_token"| && |"token"| != |"refresh_token"|;
  }

  // ---------------------------------------------------------------- what bootstrap leaves

  /** Either a session or nobody: a token that counts, together with a user. */
  predicate Whole(s: State) {
    Present(s.token) <==> s.user.Some?
  }

  /** The initial store, or a session some earlier effect put in memory. */
  predicate Ready(s: State) {
    Present(s.token) || s.user.None?
  }

  /** Bootstrap asked for the profile, whose own refresh was answered with a blank token. */
  predicate BlankOnTheWay(s: State, w: World) {
    var t := AfterRefresh(AfterLegacy(s, w), w);
    Present(t.token) && t.user.None? && w.profile.Got? && w.profile.refreshed.Some? && Blank(w.profile.refreshed.value)
  }

  /** From a store that is ready, bootstrap ends whole, unless that one reply of the server was blank. */
  lemma BootstrapIsWhole(s: State, w: World)
    requires Ready(s)
    ensures Bootstrapped(s, w).hydrated
    ensures Whole(Bootstrapped(s, w)) <==> !BlankOnTheWay(s, w)
    ensures var t := Bootstrapped(s, w);
            !BlankOnTheWay(s, w) ==> (HasAuthSession(t.user, t.token) <==> t.user.Some? && !Blank(t.user.value.id))
  {
    hide Blank, SweptStorage;
  }

  /** A session in memory is never replaced by what local storage remembers. */
  lemma MemoryWins(s: State, w: World)
    requires Present(s.token)
    ensures var t := Bootstrapped(s, w);
            && (s.user.Some? ==> t == s.(hydrated := true))
            && (t.token == s.token || t.token.None? || (w.profile.Got? && t.token == w.profile.refreshed))
            && (forall key :: key != "user" ==> Item(t.storage, key) == Item(s.storage, key))
  {
    hide Blank, SweptStorage;
  }

  /** Local storage holds no token afterwards, unless a session in memory kept it from being swept. */
  lemma NoTokenLeftBehind(s: State, w: World)
    ensures var t := Bootstrapped(s, w);
            !Truthy(Item(t.storage, "token")) && Item(t.storage, "refresh_token").None? <==>
            !Present(s.token) || (!Truthy(Item(s.storage, "token")) && Item(s.storage, "refresh_token").None?)
  {
    hide Blank;
    DistinctKeys();
  }

  /**
   On the callback page no silent refresh plays a part, and a store without a session is left to the
   callback as it is, unless local storage holds a legacy token.
   */
  lemma CallbackIsLeftAlone(s: State, w: World, refresh: Option<string>)
    requires w.onCallback
    ensures Bootstrapped(s, w.(refresh := refresh)) == Bootstrapped(s, w)
    ensures !Present(s.token) ==>
              var t := Bootstrapped(s, w);
              (t.token == s.token && t.user == s.user) || Truthy(Item(s.storage, "token"))
  {
    assert Blank("");
    hide Blank, SweptStorage;
  }

  // ---------------------------------------------------------------- who is signed in at the end

  /** The user an earlier version left in local storage, when it parses and has an id. */
  predicate StoredUser(s: State, w: World, user: User) {
    "user" in s.storage && s.storage["user"] != "" && w.parse(s.storage["user"]) == Some(user) && Trim(user.id, JsSpace) != ""
  }

  /** Something in the string: it is there and not blank. */
  predicate Full(token: Option<string>) {
    token.Some? && Trim(token.value, JsSpace) != ""
  }

  lemma EmptyIsBlank()
    ensures Trim("", JsSpace) == ""
  {
    TrimmedIsFixed("", JsSpace);
  }

  /** What the profile request leaves of a token without a user. */
  predicate ProfileDecides(t: State, w: World, token: Option<string>) {
    && t.hydrated
    && match w.profile
       case Got(me, refreshed) => t.user == Some(me) && t.token == (if refreshed.Some? then refreshed else token)
       case NoProfile => t.user == None && t.token == None
  }

  /** Nobody in memory or in local storage, but a good cookie: its token and its profile are the session. */
  lemma CookieSignsIn(s: State, w: World)
    requires !Full(s.token) && s.user.None? && !("token" in s.storage && Full(Some(s.storage["token"])))
    requires !w.onCallback && Full(w.refresh)
    ensures ProfileDecides(Bootstrapped(s, w), w, w.refresh)
    ensures w.profile.Got? ==> "user" in Bootstrapped(s, w).storage && Bootstrapped(s, w).storage["user"] == w.render(w.profile.me)
  {
    hide Trim, SweptStorage;
    EmptyIsBlank();
  }

  /** A legacy token is taken over, with its user if there is one, and otherwise with the profile's. */
  lemma LegacySignsIn(s: State, w: World, user: User)
    requires !Full(s.token) && "token" in s.storage && Full(Some(s.storage["token"]))
    ensures var t := Bootstrapped(s, w);
            && (StoredUser(s, w, user) ==>
                  && t.token == Some(s.storage["token"]) && t.user == Some(user) && t.hydrated
                  && Item(t.storage, "user") == Item(s.storage, "user"))
            && ((forall u :: !StoredUser(s, w, u)) ==> ProfileDecides(t, w, Some(s.storage["token"])))
  {
    hide Trim;
    DistinctKeys();
    EmptyIsBlank();
    if LegacyUser(w.parse, s.storage).Some? {
      assert StoredUser(s, w, LegacyUser(w.parse, s.storage).value);
    }
  }

  /** A session in memory is kept, and completed by the profile when it has no user yet. */
  lemma MemorySignsIn(s: State, w: World)
    requires Full(s.token)
    ensures s.user.Some? ==> Bootstrapped(s, w) == s.(hydrated := true)
    ensures s.user.None? ==> ProfileDecides(Bootstrapped(s, w), w, s.token)
  {
    hide Trim, SweptStorage;
  }

  /** When neither memory nor local storage nor the cookie brings a token, nobody is signed in. */
  lemma NobodySignsIn(s: State, w: World)
    requires !Full(s.token) && s.user.None? && !("token" in s.storage && Full(Some(s.storage["token"])))
    requires w.onCallback || !Full(w.refresh)
    ensures var t := Bootstrapped(s, w);
            !Full(t.token) && t.user.None? && t.hydrated
  {
    hide Trim, SweptStorage;
    EmptyIsBlank();
  }

  /** Nothing else in local storage is touched, and a stored user without a token is removed when nobody signs in. */
  lemma StorageAfter(s: State, w: World, key: string)
    ensures key != "user" && key != "token" && key != "refresh_token" ==>
              Item(Bootstrapped(s, w).storage, key) == Item(s.storage, key)
    ensures !Full(s.token) && s.user.None? && Bootstrapped(s, w).user.None? && "user" in s.storage && s.storage["user"] != ""
            && w.parse(s.storage["user"]).Some? && !("token" in s.storage && Full(Some(s.storage["token"])))
            ==> "user" !in Bootstrapped(s, w).storage
  {
    hide Trim;
    DistinctKeys();
  }
}
