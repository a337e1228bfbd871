/**
 * The session store: the signed-in user and a loading flag kept beside the browser's key/value
 * storage, with the start-up restore, sign-in, sign-up and sign-out steps.
 */
module AuthContext {
  import opened Wrappers
  import opened Types

  /** A stored value: plain text, or the JSON text `JSON.stringify(user)` of a user (named by
      the user it encodes). */
  datatype Stored = Text(text: string) | UserJson(user: User)

  /** `localStorage.getItem(key)`: `null` for a missing key. */
  function Get(storage: map<string, Stored>, key: string): (r: Option<Stored>)
    ensures r.Some? <==> key in storage
    ensures r.Some? ==> r.value == storage[key]
  {
    if key in storage then Some(storage[key]) else None
  }

  /** JavaScript truthiness of a `getItem` result: `null` and `''` are falsy; the JSON text of a
      user is never empty. */
  predicate Truthy(v: Option<Stored>) {
    v.Some? && (v.value.Text? ==> v.value.text != "")
  }

  /** The keys the session writes and clears. */
  const SessionKeys: set<string> := {"user", "access", "refresh"}

  /** What the start-up effect finds: no session, a saved user, or a saved `user` value that
      is not the JSON text of a user. */
  datatype Restored = NoSession | Session(user: User) | Unreadable

  /** The start-up restore's reading of the storage: a session exists exactly when both the
      saved user and the access token are truthy. */
  function SavedSession(storage: map<string, Stored>): (r: Restored)
    ensures r != NoSession <==> Truthy(Get(storage, "user")) && Truthy(Get(storage, "access"))
    ensures r.Session? ==> storage["user"] == UserJson(r.user)
    ensures r.Unreadable? ==> storage["user"].Text?
  {
    if Truthy(Get(storage, "user")) && Truthy(Get(storage, "access")) then
      match storage["user"]
      case UserJson(u) => Session(u)
      case Text(_) => Unreadable
    else NoSession
  }

  /** What a successful sign-in returns. */
  datatype LoginData = LoginData(access: string, refresh: string, user: User)

  /** The storage after the three `setItem` calls of a successful sign-in. */
  function StoreSession(storage: map<string, Stored>, data: LoginData): (r: map<string, Stored>)
    ensures r.Keys == storage.Keys + SessionKeys
    ensures r["access"] == Text(data.access) && r["refresh"] == Text(data.refresh)
    ensures r["user"] == UserJson(data.user)
    ensures forall k :: k in storage && k !in SessionKeys ==> r[k] == storage[k]
  {
    storage["access" := Text(data.access)]["refresh" := Text(data.refresh)]["user" := UserJson(data.user)]
  }

  /** The storage after the three `removeItem` calls of a sign-out. */
  function ClearSession(storage: map<string, Stored>): (r: map<string, Stored>)
    ensures r.Keys == storage.Keys - SessionKeys
    ensures forall k :: k in r ==> r[k] == storage[k]
  {
    storage - {"user"} - {"access"} - {"refresh"}
  }

  /** After a sign-out, a restart finds no session, whatever else the storage holds. */
  lemma LogoutThenRestore(storage: map<string, Stored>)
    ensures SavedSession(ClearSession(storage)) == NoSession
  {
    assert "user" !in ClearSession(storage);
  }

  /** After a sign-in, a restart finds the signed-in user, provided the server's access token
      is not empty; an empty token reads as falsy and the restart finds no session. */
  lemma LoginThenRestore(storage: map<string, Stored>, data: LoginData)
    ensures SavedSession(StoreSession(storage, data))
            == if data.access != "" then Session(data.user) else NoSession
  {
  }

  /** Sign-out then sign-in leaves exactly the session keys and the keys that were there
      besides them. */
  lemma LoginAfterLogoutKeys(storage: map<string, Stored>, data: LoginData)
    ensures StoreSession(ClearSession(storage), data).Keys == storage.Keys + SessionKeys
  {
  }

  /** The e-mail and password handed to the sign-in and sign-up requests. */
  datatype Credentials = Credentials(email: string, password: string)

  class SessionStore {
    var storage: map<string, Stored>
    var user: Option<User>
    var isLoading: bool

    /** The provider's initial state: no user and loading, over whatever the browser holds. */
    constructor (storage: map<string, Stored>)
      ensures this.storage == storage && user == None && isLoading
    {
      this.storage := storage;
      user := None;
      isLoading := true;
    }

    /** The start-up effect. A saved session sets the user; loading ends unless parsing the saved
        user throws, in which case `threw` is set and nothing changes. */
    method Restore() returns (threw: bool)
      modifies this`user, this`isLoading
      ensures threw <==> SavedSession(storage).Unreadable?
      ensures SavedSession(storage).Session? ==> user == Some(SavedSession(storage).user) && !isLoading
      ensures SavedSession(storage).NoSession? ==> user == old(user) && !isLoading
      ensures threw ==> user == old(user) && isLoading == old(isLoading)
    {
      var savedUser := Get(storage, "user");
      var token := Get(storage, "access");
      if Truthy(savedUser) && Truthy(token) {
        match savedUser.value {
          case UserJson(u) => user := Some(u);
          case Text(_) => return true;
        }
      }
      isLoading := false;
      threw := false;
    }

    /** `login`, where `api` is the outcome of the sign-in request. Success writes the tokens and
        the user and sets the user; failure is rethrown and changes neither. Loading ends either
        way. */
    method Login(api: ApiResult<LoginData>) returns (thrown: Option<string>)
      modifies this`storage, this`user, this`isLoading
      ensures thrown.None? <==> api.Ok?
      ensures api.Ok? ==> storage == StoreSession(old(storage), api.value) && user == Some(api.value.user)
      ensures api.Fail? ==> storage == old(storage) && user == old(user) && thrown == Some(api.message)
      ensures !isLoading
    {
      isLoading := true;
      match api {
        case Ok(data) =>
          storage := storage["access" := Text(data.access)];
          storage := storage["refresh" := Text(data.refresh)];
          storage := storage["user" := UserJson(data.user)];
          user := Some(data.user);
          thrown := None;
        case Fail(message) =>
          thrown := Some(message);
      }
      isLoading := false;
    }

    /** `register`: the sign-up request gets only the e-mail and the password (the names are
        dropped); the sign-in runs, with the same two, only after the sign-up succeeds. */
    method Register(firstName: string, lastName: string, email: string, password: string,
                    registered: ApiResult<bool>, loggedIn: ApiResult<LoginData>)
      returns (registerCall: Credentials, loginCall: Option<Credentials>, thrown: Option<string>)
      modifies this`storage, this`user, this`isLoading
      ensures registerCall == Credentials(email, password)
      ensures loginCall.Some? <==> registered.Ok?
      ensures loginCall.Some? ==> loginCall.value == Credentials(email, password)
      ensures registered.Fail? ==>
                thrown == Some(registered.message) && storage == old(storage) && user == old(user)
      ensures registered.Ok? && loggedIn.Ok? ==>
                thrown == None && storage == StoreSession(old(storage), loggedIn.value)
                && user == Some(loggedIn.value.user)
      ensures registered.Ok? && loggedIn.Fail? ==>
                thrown == Some(loggedIn.message) && storage == old(storage) && user == old(user)
      ensures !isLoading
    {
      isLoading := true;
      registerCall := Credentials(email, password);
      match registered {
        case Ok(_) =>
          loginCall := Some(Credentials(email, password));
          thrown := Login(loggedIn);
        case Fail(message) =>
          loginCall := None;
          thrown := Some(message);
      }
      isLoading := false;
    }

    /** `logout`: no user, and exactly the three session keys removed. */
    method Logout()
      modifies this`storage, this`user
      ensures user == None && storage == ClearSession(old(storage))
    {
      user := None;
      storage := storage - {"user"};
      storage := storage - {"access"};
      storage := storage - {"refresh"};
    }
  }
}
