/** The demo sign-in of hooks/use-auth.ts: one hard-coded account, the signed-in user
    kept in `localStorage` under "auth-user", and the context guard of `useAuth`.
    Storage is a map from keys to texts; `JSON.stringify` and `JSON.parse` of a user
    are parameters. */
module Auth {
  import opened Wrappers

  datatype User = User(id: string, email: string, name: string)

  type Storage = map<string, string>

  const StorageKey: string := "auth-user"
  const AdminEmail: string := "admin@company.com"
  const AdminPassword: string := "admin123"
  const Admin: User := User("1", AdminEmail, "System Administrator")
  const InvalidCredentials: string := "Invalid credentials"
  const OutsideProvider: string := "useAuth must be used within an AuthProvider"

  /** The provider's state: the user, whether the stored session is still being
      restored, and the browser storage. */
  datatype Session = Session(user: Option<User>, loading: bool, storage: Storage)

  /** The mount effect. A stored, non-empty entry is parsed into the user (`decode`
      answers `None` where `JSON.parse` throws); then loading ends. A throw escapes the
      effect before loading ends, so the spinner stays. */
  function Restore(storage: Storage, decode: string -> Option<User>): (s: Session)
    ensures s.storage == storage
    ensures !s.loading <==> StorageKey !in storage || storage[StorageKey] == "" || decode(storage[StorageKey]).Some?
    ensures s.user.Some? <==> StorageKey in storage && storage[StorageKey] != "" && decode(storage[StorageKey]).Some?
    ensures s.user.Some? ==> s.user == decode(storage[StorageKey])
  {
    if StorageKey in storage && storage[StorageKey] != "" then
      match decode(storage[StorageKey])
      case Some(u) => Session(Some(u), false, storage)
      case None => Session(None, true, storage)
    else Session(None, false, storage)
  }

  /** `login`: only the demo account's credentials sign in, storing its record; anything
      else fails with "Invalid credentials" and changes nothing. */
  function Login(s: Session, email: string, password: string, encode: User -> string): (r: (Session, Result<(), string>))
    ensures r.1.Ok? <==> email == AdminEmail && password == AdminPassword
    ensures r.1.Ok? ==> && r.0.user == Some(Admin) && r.0.loading == s.loading
                        && r.0.storage == s.storage[StorageKey := encode(Admin)]
    ensures r.1.Err? ==> r.0 == s && r.1.error == InvalidCredentials
  {
    if email == AdminEmail && password == AdminPassword then
      (s.(user := Some(Admin), storage := s.storage[StorageKey := encode(Admin)]), Ok(()))
    else (s, Err(InvalidCredentials))
  }

  /** `logout`: forgets the user and removes the stored entry, and only that entry. */
  function Logout(s: Session): (r: Session)
    ensures r.user.None? && r.loading == s.loading
    ensures StorageKey !in r.storage
    ensures forall k :: k in s.storage && k != StorageKey ==> k in r.storage && r.storage[k] == s.storage[k]
    ensures r.storage.Keys == s.storage.Keys - {StorageKey}
  {
    s.(user := None, storage := s.storage - {StorageKey})
  }

  /** `useAuth`: the provider's session, or an error outside any provider. */
  function UseAuth(context: Option<Session>): (r: Result<Session, string>)
    ensures r.Err? <==> context.None?
    ensures r.Err? ==> r.error == OutsideProvider
    ensures r.Ok? ==> r.value == context.value
  {
    match context
    case None => Err(OutsideProvider)
    case Some(s) => Ok(s)
  }

  /** Signing in survives a reload, provided the stored record parses back. */
  lemma LoginThenReload(s: Session, encode: User -> string, decode: string -> Option<User>)
    requires encode(Admin) != "" && decode(encode(Admin)) == Some(Admin)
    ensures var signedIn := Login(s, AdminEmail, AdminPassword, encode).0;
            Restore(signedIn.storage, decode) == Session(Some(Admin), false, signedIn.storage)
  {
  }

  /** Signing out survives a reload: nobody is signed in and loading ends. */
  lemma LogoutThenReload(s: Session, decode: string -> Option<User>)
    ensures Restore(Logout(s).storage, decode) == Session(None, false, Logout(s).storage)
  {
  }

  /** A failed sign-in leaves what a reload would restore as it was. */
  lemma FailedLoginRestoresSame(s: Session, email: string, password: string, encode: User -> string, decode: string -> Option<User>)
    requires email != AdminEmail || password != AdminPassword
    ensures Restore(Login(s, email, password, encode).0.storage, decode) == Restore(s.storage, decode)
  {
  }

  /** A stored entry that does not parse leaves the provider loading for good. */
  lemma CorruptEntryKeepsLoading(storage: Storage, decode: string -> Option<User>)
    requires StorageKey in storage && storage[StorageKey] != "" && decode(storage[StorageKey]).None?
    ensures Restore(storage, decode).loading && Restore(storage, decode).user.None?
  {
  }
}
