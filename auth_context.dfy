/**
 * The client's authentication state: the provider keeps `user`, `token` and
 * `isAdmin`, mirrors the last two into the browser's key-value storage on
 * `login`, clears them on `logout`, and restores them from storage when it is
 * created (a page load).
 */
module AuthContext {
  import opened Wrappers

  /** The client's view of a user (email and names). */
  datatype ClientUser = ClientUser(email: string, firstName: string, lastName: string)

  /** `localStorage`: string keys to string values. */
  type Storage = map<string, string>

  const TokenKey := "token"
  const IsAdminKey := "isAdmin"
  const OutsideProvider := "useAuth must be used within an AuthProvider"

  /** `String(b)` for a boolean. */
  function BoolString(b: bool): string {
    if b then "true" else "false"
  }

  /** `localStorage.getItem(key)`: the stored value, or null. */
  function GetItem(storage: Storage, key: string): Option<string> {
    if key in storage then Some(storage[key]) else None
  }

  /** The provider's fields together with the storage they are mirrored into. */
  datatype AuthState = AuthState(user: Option<ClientUser>, token: Option<string>, isAdmin: bool, storage: Storage)

  /** The state a freshly mounted provider starts in, given what storage holds. */
  function InitialState(storage: Storage): AuthState {
    AuthState(None, GetItem(storage, TokenKey), GetItem(storage, IsAdminKey) == Some("true"), storage)
  }

  /** The state after `login(t, a)`. */
  function LoginState(s: AuthState, t: string, a: bool): AuthState {
    s.(token := Some(t), isAdmin := a, storage := s.storage[TokenKey := t][IsAdminKey := BoolString(a)])
  }

  /** The state after `logout()`. */
  function LogoutState(s: AuthState): AuthState {
    AuthState(None, None, false, s.storage - {TokenKey} - {IsAdminKey})
  }

  /** `AuthProvider`: the state holder whose `login` and `logout` the components call. */
  class AuthProvider {
    var user: Option<ClientUser>
    var token: Option<string>
    var isAdmin: bool
    var storage: Storage

    function State(): AuthState
      reads this
    {
      AuthState(user, token, isAdmin, storage)
    }

    /** Mounting: no user; the token is whatever storage holds; admin exactly when storage holds "true". */
    constructor (stored: Storage)
      ensures user == None && storage == stored
      ensures token == GetItem(stored, TokenKey)
      ensures isAdmin <==> IsAdminKey in stored && stored[IsAdminKey] == "true"
      ensures State() == InitialState(stored)
    {
      user := None;
      token := GetItem(stored, TokenKey);
      isAdmin := GetItem(stored, IsAdminKey) == Some("true");
      storage := stored;
    }

    /** Stores the token and the admin flag (as "true" or "false") and sets both fields; the user is left as it was. */
    method Login(t: string, a: bool)
      modifies this
      ensures storage == old(storage)[TokenKey := t][IsAdminKey := BoolString(a)]
      ensures token == Some(t) && isAdmin == a && user == old(user)
      ensures State() == LoginState(old(State()), t, a)
    {
      storage := storage[TokenKey := t];
      storage := storage[IsAdminKey := BoolString(a)];
      token := Some(t);
      isAdmin := a;
    }

    /** Removes both keys from storage (and nothing else) and resets the three fields. */
    method Logout()
      modifies this
      ensures TokenKey !in storage && IsAdminKey !in storage
      ensures forall k :: k != TokenKey && k != IsAdminKey ==> (k in storage <==> k in old(storage))
      ensures forall k :: k in storage ==> storage[k] == old(storage)[k]
      ensures token == None && user == None && !isAdmin
      ensures State() == LogoutState(old(State()))
    {
      storage := storage - {TokenKey};
      storage := storage - {IsAdminKey};
      token := None;
      user := None;
      isAdmin := false;
    }
  }

  /** `useAuth()`: throws outside a provider, otherwise hands back the provider's value itself. */
  function UseAuth(context: Option<AuthProvider>): (r: Result<AuthProvider, string>)
    ensures context.None? <==> r.Failure?
    ensures r.Failure? ==> r.error == OutsideProvider
    ensures context.Some? ==> r == Success(context.value)
  {
    match context
    case None => Failure(OutsideProvider)
    case Some(provider) => Success(provider)
  }

  /** Logging out twice leaves the same state as logging out once. */
  lemma LogoutIdempotent(s: AuthState)
    ensures LogoutState(LogoutState(s)) == LogoutState(s)
  {
  }

  /** Whatever a login stored, a logout afterwards leaves the same state as a logout alone. */
  lemma LoginThenLogout(s: AuthState, t: string, a: bool)
    ensures LogoutState(LoginState(s, t, a)) == LogoutState(s)
  {
  }

  /** A page load after `login(t, a)` restores token `t` and flag `a` from storage; only the user is lost. */
  lemma ReloadAfterLogin(s: AuthState, t: string, a: bool)
    ensures var after := LoginState(s, t, a);
      InitialState(after.storage) == after.(user := None)
  {
  }

  /** A page load after `logout()` comes back in exactly the logged-out state. */
  lemma ReloadAfterLogout(s: AuthState)
    ensures var after := LogoutState(s);
      InitialState(after.storage) == after
  {
  }
}
