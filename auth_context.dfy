/** The client session (`AuthProvider`): the token and user kept in memory,
    mirrored in browser storage under the keys `token` and `user`, and the
    `isLoading` flag that stays up until storage has been read. */
module AuthContext {
  import opened Wrappers
  import opened SessionCodec

  const TokenKey: string := "token"
  const UserKey: string := "user"

  /** Every state cell of the provider together with the storage it mirrors. */
  datatype Session = Session(
    storage: map<string, string>,
    token: Option<string>,
    user: Option<SessionUser>,
    isLoading: bool)

  /** `localStorage.getItem(key)`: `null` when the key is absent. */
  function Get(storage: map<string, string>, key: string): Option<string> {
    if key in storage then Some(storage[key]) else None
  }

  /** JavaScript truthiness of a `string | null`: `null` and `""` are falsy. */
  predicate Truthy(v: Option<string>) {
    v.Some? && v.value != ""
  }

  /** Both entries are stored and non-empty, the guard of the init effect. */
  predicate BothStored(storage: map<string, string>) {
    Truthy(Get(storage, TokenKey)) && Truthy(Get(storage, UserKey))
  }

  /** The state a freshly mounted provider starts from. */
  function Fresh(storage: map<string, string>): (s: Session)
    ensures s.storage == storage && s.token.None? && s.user.None? && s.isLoading
  {
    Session(storage, None, None, true)
  }

  /** The init effect throws: `JSON.parse` of the stored user is not valid,
      and nothing catches the exception. */
  predicate InitThrows(s: Session) {
    BothStored(s.storage) && Parse(Get(s.storage, UserKey).value) == Malformed
  }

  /** The state cells after the init effect. When `JSON.parse` throws, the
      token cell has already been set, the user cell has not, and `isLoading`
      is not lowered; the exception then escapes the effect, and with no
      error boundary above the provider React unmounts the whole tree, so
      that state is recorded here but never rendered. A stored text `null`
      yields a `null` user. */
  function AfterInit(s: Session): (r: Session)
    ensures r.storage == s.storage
    ensures !InitThrows(s) ==> !r.isLoading
    ensures InitThrows(s) ==> r.isLoading == s.isLoading && r.user == s.user
    ensures r.token != s.token || r.user != s.user ==> BothStored(s.storage)
    ensures BothStored(s.storage) ==> r.token == Get(s.storage, TokenKey)
    ensures BothStored(s.storage) && !InitThrows(s) ==>
              (r.user.Some? <==> Parse(Get(s.storage, UserKey).value).Value?)
  {
    if BothStored(s.storage) then
      var stored := Get(s.storage, UserKey).value;
      match Parse(stored)
      case Malformed => s.(token := Get(s.storage, TokenKey))
      case Null => s.(token := Get(s.storage, TokenKey), user := None, isLoading := false)
      case Value(u) => s.(token := Get(s.storage, TokenKey), user := Some(u), isLoading := false)
    else s.(isLoading := false)
  }

  /** The state after `login(t, u)`. */
  function AfterLogin(s: Session, t: string, u: SessionUser): (r: Session)
    ensures Get(r.storage, TokenKey) == Some(t)
    ensures Get(r.storage, UserKey).Some? && Parse(Get(r.storage, UserKey).value) == Value(u)
    ensures forall k :: k != TokenKey && k != UserKey ==> Get(r.storage, k) == Get(s.storage, k)
    ensures r.token == Some(t) && r.user == Some(u) && r.isLoading == s.isLoading
  {
    ParseStringify(u);
    s.(storage := s.storage[TokenKey := t][UserKey := Stringify(u)], token := Some(t), user := Some(u))
  }

  /** The state after `logout()`. */
  function AfterLogout(s: Session): (r: Session)
    ensures Get(r.storage, TokenKey).None? && Get(r.storage, UserKey).None?
    ensures forall k :: k != TokenKey && k != UserKey ==> Get(r.storage, k) == Get(s.storage, k)
    ensures r.token.None? && r.user.None? && r.isLoading == s.isLoading
  {
    s.(storage := s.storage - {TokenKey, UserKey}, token := None, user := None)
  }

  /** `hasRole(role)`: `user?.roles?.includes(role) ?? false`. */
  function HasRole(user: Option<SessionUser>, role: string): (r: bool)
    ensures r <==> user.Some? && user.value.roles.Some? && role in user.value.roles.value
    ensures user.None? || user.value.roles.None? ==> !r
  {
    match user
    case None => false
    case Some(u) =>
      match u.roles
      case None => false
      case Some(rs) => exists i :: 0 <= i < |rs| && rs[i] == role
  }

  /** The token and the user are present together. */
  predicate Paired(s: Session) {
    s.token.Some? <==> s.user.Some?
  }

  /** A session saved by `login` is restored whole by the next page load. */
  lemma LoginThenReload(s: Session, t: string, u: SessionUser)
    requires t != ""
    ensures var r := AfterInit(Fresh(AfterLogin(s, t, u).storage));
      !InitThrows(Fresh(AfterLogin(s, t, u).storage)) &&
      r.token == Some(t) && r.user == Some(u) && !r.isLoading
  {
    var st := AfterLogin(s, t, u).storage;
    assert Get(st, TokenKey) == Some(t);
    ParseStringify(u);
    assert Get(st, UserKey) == Some(Stringify(u));
    assert Stringify(u) != "" by { assert Stringify(u)[0] == '{'; }
  }

  /** After `logout`, the next page load starts signed out. */
  lemma LogoutThenReload(s: Session)
    ensures var r := AfterInit(Fresh(AfterLogout(s).storage));
      r.token.None? && r.user.None? && !r.isLoading
  {
  }

  /** Logging out twice leaves the same state as logging out once. */
  lemma LogoutIdempotent(s: Session)
    ensures AfterLogout(AfterLogout(s)) == AfterLogout(s)
  {
  }

  /** `login` and `logout` set and clear the token and the user together; the
      init effect does too, unless the stored user text is `null` or does
      not parse. */
  lemma PairedKept(s: Session, t: string, u: SessionUser)
    ensures Paired(AfterLogin(s, t, u))
    ensures Paired(AfterLogout(s))
    ensures Paired(s) && !InitThrows(s) &&
            (BothStored(s.storage) ==> Parse(Get(s.storage, UserKey).value) != Null) ==>
            Paired(AfterInit(s))
  {
  }

  /** The provider's state cells and the browser storage it writes. */
  class AuthProvider {
    var storage: map<string, string>
    var token: Option<string>
    var user: Option<SessionUser>
    var isLoading: bool

    function State(): Session
      reads this
    {
      Session(storage, token, user, isLoading)
    }

    /** Mounting: `user` and `token` start `null`, `isLoading` true. */
    constructor(browserStorage: map<string, string>)
      ensures State() == Fresh(browserStorage)
    {
      storage := browserStorage;
      token := None;
      user := None;
      isLoading := true;
    }

    /** The init effect; `threw` reports the uncaught `JSON.parse` error,
        after which nothing of the application is rendered. */
    method Initialize() returns (threw: bool)
      modifies this
      ensures threw == InitThrows(old(State()))
      ensures State() == AfterInit(old(State()))
    {
      var storedToken := Get(storage, TokenKey);
      var storedUser := Get(storage, UserKey);
      threw := false;
      if Truthy(storedToken) && Truthy(storedUser) {
        token := storedToken;
        var parsed := Parse(storedUser.value);
        if parsed.Malformed? {
          threw := true;
          return;
        }
        user := if parsed.Value? then Some(parsed.user) else None;
      }
      isLoading := false;
    }

    /** `login(newToken, newUser)`. */
    method Login(newToken: string, newUser: SessionUser)
      modifies this
      ensures State() == AfterLogin(old(State()), newToken, newUser)
    {
      storage := storage[TokenKey := newToken];
      storage := storage[UserKey := Stringify(newUser)];
      token := Some(newToken);
      user := Some(newUser);
    }

    /** `logout()`. */
    method Logout()
      modifies this
      ensures State() == AfterLogout(old(State()))
    {
      storage := storage - {TokenKey};
      storage := storage - {UserKey};
      token := None;
      user := None;
    }
  }
}
