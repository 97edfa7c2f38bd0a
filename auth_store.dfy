/** The client's authentication store: the session restored from browser
    storage when the store is created, and the four actions that change it.
    Token decoding, JSON parsing and serialising are parameters: `decode`
    answers the token's `exp` claim (in seconds; `None` inside when the claim
    is missing) or fails, `parse` answers the parsed user (`None` inside for
    JSON `null`) or fails. */
module AuthStore {
  import opened Common

  datatype User = User(id: int, username: string, email: string)

  /** The browser's key/value storage. */
  class LocalStorage {
    var items: map<string, string>

    constructor (items: map<string, string>)
      ensures this.items == items
    {
      this.items := items;
    }

    function GetItem(key: string): (v: Option<string>)
      reads this
      ensures v.Some? <==> key in items
      ensures v.Some? ==> v.value == items[key]
    {
      if key in items then Some(items[key]) else None
    }

    method SetItem(key: string, value: string)
      modifies this
      ensures items == old(items)[key := value]
    {
      items := items[key := value];
    }

    method RemoveItem(key: string)
      modifies this
      ensures items == old(items) - {key}
    {
      items := items - {key};
    }
  }

  /** The session fields restored at start-up. */
  datatype StoredAuth = StoredAuth(token: Option<string>, user: Option<User>)

  const SignedOut := StoredAuth(None, None)

  /** The restored session together with the storage contents afterwards. */
  datatype Loaded = Loaded(auth: StoredAuth, items: map<string, string>)

  /** A stored token that is present and not empty. */
  predicate HasToken(items: map<string, string>) {
    "token" in items && items["token"] != ""
  }

  /** The token decodes and its expiry, in milliseconds, is before `now`. A
      token without an `exp` claim never counts as expired (`undefined * 1000`
      is NaN, and NaN is not less than anything). */
  predicate Expired(items: map<string, string>, now: int, decode: string -> Option<Option<int>>)
    requires HasToken(items)
  {
    var exp := decode(items["token"]);
    exp.Some? && exp.value.Some? && exp.value.value * 1000 < now
  }

  /** `localStorage.getItem('user') || 'null'` */
  function UserText(items: map<string, string>): (text: string)
    ensures text != ""
  {
    if "user" in items && items["user"] != "" then items["user"] else "null"
  }

  /** `getStoredAuth()`: a token and its user when the token decodes, has not
      expired and the stored user parses; an expired token loses only the
      `token` key; a token that fails to decode, or a user that fails to
      parse, loses both keys. */
  function LoadAuth(items: map<string, string>, now: int, decode: string -> Option<Option<int>>,
                    parse: string -> Option<Option<User>>): (r: Loaded)
    ensures !HasToken(items) ==> r == Loaded(SignedOut, items)
    ensures r.auth.token.Some? <==>
              HasToken(items) && decode(items["token"]).Some? && !Expired(items, now, decode)
              && parse(UserText(items)).Some?
    ensures r.auth.token.Some? ==>
              r.auth == StoredAuth(Some(items["token"]), parse(UserText(items)).value) && r.items == items
    ensures r.auth.token.None? ==> r.auth == SignedOut
    ensures HasToken(items) && Expired(items, now, decode) ==> r.items == items - {"token"}
    ensures HasToken(items) && (decode(items["token"]).None? ||
                                (!Expired(items, now, decode) && parse(UserText(items)).None?))
            ==> r.items == items - {"token", "user"}
  {
    if !HasToken(items) then Loaded(SignedOut, items)
    else
      var token := items["token"];
      if decode(token).None? then Loaded(SignedOut, items - {"token", "user"})
      else if Expired(items, now, decode) then Loaded(SignedOut, items - {"token"})
      else
        var user := parse(UserText(items));
        if user.None? then Loaded(SignedOut, items - {"token", "user"})
        else Loaded(StoredAuth(Some(token), user.value), items)
  }

  /** Restoring never adds or rewrites a key, and keys other than `token`
      and `user` survive it. */
  lemma LoadOnlyRemoves(items: map<string, string>, now: int, decode: string -> Option<Option<int>>,
                        parse: string -> Option<Option<User>>)
    ensures var r := LoadAuth(items, now, decode, parse).items;
            && (forall k :: k in r ==> k in items && r[k] == items[k])
            && (forall k :: k in items && k != "token" && k != "user" ==> k in r)
  {
  }

  /** After an expired token was dropped, the stale `user` key is still there,
      but restoring again signs out without touching storage. */
  lemma ExpiredLeavesUserBehind(items: map<string, string>, now: int, decode: string -> Option<Option<int>>,
                                parse: string -> Option<Option<User>>)
    requires HasToken(items) && Expired(items, now, decode)
    ensures var r := LoadAuth(items, now, decode, parse);
            && r.auth == SignedOut
            && ("user" in r.items <==> "user" in items)
            && LoadAuth(r.items, now, decode, parse) == Loaded(SignedOut, r.items)
  {
  }

  /** A token without an `exp` claim is restored whatever the clock says. */
  lemma NoExpiryNeverExpires(items: map<string, string>, now: int, decode: string -> Option<Option<int>>,
                             parse: string -> Option<Option<User>>)
    requires HasToken(items) && decode(items["token"]) == Some(None) && parse(UserText(items)).Some?
    ensures LoadAuth(items, now, decode, parse).auth.token == Some(items["token"])
  {
  }

  /** `getStoredAuth` run against the storage object. */
  method GetStoredAuth(storage: LocalStorage, now: int, decode: string -> Option<Option<int>>,
                       parse: string -> Option<Option<User>>) returns (auth: StoredAuth)
    modifies storage
    ensures Loaded(auth, storage.items) == LoadAuth(old(storage.items), now, decode, parse)
  {
    var token := storage.GetItem("token");
    if token.None? || token.value == "" {
      return SignedOut;
    }
    var exp := decode(token.value);
    if exp.None? {
      storage.RemoveItem("token");
      storage.RemoveItem("user");
      return SignedOut;
    }
    if exp.value.Some? && exp.value.value * 1000 < now {
      storage.RemoveItem("token");
      return SignedOut;
    }
    var stored := storage.GetItem("user");
    var text := if stored.Some? && stored.value != "" then stored.value else "null";
    var user := parse(text);
    if user.None? {
      storage.RemoveItem("token");
      storage.RemoveItem("user");
      return SignedOut;
    }
    auth := StoredAuth(token, user.value);
  }

  /** The store (`useAuthStore`) with its storage. */
  class Store {
    var token: Option<string>
    var user: Option<User>
    var isLoading: bool
    var error: Option<string>
    const storage: LocalStorage

    /** Creating the store restores the session; it is not loading and has
        no error. */
    constructor (storage: LocalStorage, now: int, decode: string -> Option<Option<int>>,
                 parse: string -> Option<Option<User>>)
      modifies storage
      ensures this.storage == storage
      ensures Loaded(StoredAuth(token, user), storage.items) == LoadAuth(old(storage.items), now, decode, parse)
      ensures !isLoading && error.None?
    {
      var auth := GetStoredAuth(storage, now, decode, parse);
      this.storage := storage;
      token, user := auth.token, auth.user;
      isLoading, error := false, None;
    }

    /** `setAuth`: both keys written, the session set, the error cleared. */
    method SetAuth(t: string, u: User, stringify: User -> string)
      modifies this, storage
      ensures storage.items == old(storage.items)["token" := t]["user" := stringify(u)]
      ensures token == Some(t) && user == Some(u) && error.None?
      ensures isLoading == old(isLoading)
    {
      storage.SetItem("token", t);
      storage.SetItem("user", stringify(u));
      token, user, error := Some(t), Some(u), None;
    }

    /** `clearAuth`: both keys removed and the session emptied; error and
        loading flag kept. */
    method ClearAuth()
      modifies this, storage
      ensures storage.items == old(storage.items) - {"token", "user"}
      ensures token.None? && user.None?
      ensures error == old(error) && isLoading == old(isLoading)
    {
      storage.RemoveItem("token");
      storage.RemoveItem("user");
      token, user := None, None;
    }

    method SetError(e: Option<string>)
      modifies this
      ensures error == e
      ensures token == old(token) && user == old(user) && isLoading == old(isLoading)
    {
      error := e;
    }

    method SetLoading(loading: bool)
      modifies this
      ensures isLoading == loading
      ensures token == old(token) && user == old(user) && error == old(error)
    {
      isLoading := loading;
    }
  }

  /** A session saved by `setAuth` is restored by the next start-up while its
      token is valid and unexpired and the user serialisation parses back. */
  lemma SavedSessionRestores(items: map<string, string>, t: string, u: User, now: int,
                             decode: string -> Option<Option<int>>, parse: string -> Option<Option<User>>,
                             stringify: User -> string)
    requires t != "" && stringify(u) != ""
    requires decode(t).Some? && (decode(t).value.None? || decode(t).value.value * 1000 >= now)
    requires parse(stringify(u)) == Some(Some(u))
    ensures var saved := items["token" := t]["user" := stringify(u)];
            LoadAuth(saved, now, decode, parse) == Loaded(StoredAuth(Some(t), Some(u)), saved)
  {
    var saved := items["token" := t]["user" := stringify(u)];
    assert saved["token"] == t && UserText(saved) == stringify(u);
  }

  /** After `clearAuth`, the next start-up is signed out and changes nothing. */
  lemma ClearedSessionStaysOut(items: map<string, string>, now: int,
                               decode: string -> Option<Option<int>>, parse: string -> Option<Option<User>>)
    ensures var cleared := items - {"token", "user"};
            LoadAuth(cleared, now, decode, parse) == Loaded(SignedOut, cleared)
  {
  }
}
