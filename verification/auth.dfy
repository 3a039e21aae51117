/** The identity store of `src/context/AuthContext.tsx`: a list of
    registered users, the current session, and the session marker kept in
    local storage (`procrastinator_user`), which outlives a reload while
    the in-memory session does not. Passwords are kept and
    compared as plain strings, as the application does; nothing here is a
    security claim. */
module Auth {
  import opened Wrappers
  import opened Seqs

  datatype UserRecord = UserRecord(username: string, password: string, displayName: string, createdAt: int)

  /** The public projection kept as the session (`User` in the source). */
  datatype Session = Session(username: string, displayName: string)

  /** `session` is the in-memory user; `marker` is the persisted copy. */
  datatype AuthState = AuthState(users: seq<UserRecord>, session: Option<Session>, marker: Option<Session>)

  /** The two errors the store throws. */
  datatype AuthError = InvalidCredentials | UsernameTaken

  /** The result of an operation that may throw: the new state, and the
      error thrown, if any. */
  datatype AuthStep = AuthStep(state: AuthState, error: Option<AuthError>)

  /** The message of the thrown `Error`. */
  function Message(e: AuthError): string {
    match e
    case InvalidCredentials => "Invalid credentials"
    case UsernameTaken => "Username already exists"
  }

  predicate UniqueUsernames(users: seq<UserRecord>) {
    forall i, j :: 0 <= i < j < |users| ==> users[i].username != users[j].username
  }

  predicate Registered(users: seq<UserRecord>, username: string) {
    exists i :: 0 <= i < |users| && users[i].username == username
  }

  predicate CredentialsMatch(u: UserRecord, username: string, password: string) {
    u.username == username && u.password == password
  }

  /** Index `i` holds the first record matching both username and password. */
  predicate FirstCredentialMatch(users: seq<UserRecord>, username: string, password: string, i: int) {
    0 <= i < |users| && CredentialsMatch(users[i], username, password)
    && forall j :: 0 <= j < i ==> !CredentialsMatch(users[j], username, password)
  }

  /** The in-memory session agrees with the persisted marker. */
  predicate Synced(s: AuthState) {
    s.session == s.marker
  }

  /** A page reload: memory is lost, local storage is kept. */
  function Reload(s: AuthState): (r: AuthState)
    ensures r.users == s.users && r.marker == s.marker && r.session.None?
  {
    s.(session := None)
  }

  /** Startup: a stored session marker becomes the session as it is,
      without looking it up in the user list; no marker changes nothing. */
  function Restore(s: AuthState): (r: AuthState)
    ensures r.users == s.users && r.marker == s.marker
    ensures s.marker.Some? ==> r.session == s.marker
    ensures s.marker.None? ==> r == s
  {
    if s.marker.Some? then s.(session := s.marker) else s
  }

  /** `login`: succeeds exactly when some record matches both fields, and
      then the session is the first such record's username and display
      name, written to the marker too; otherwise throws
      `InvalidCredentials`, whatever was wrong, and changes nothing. The
      user list is never touched. */
  function Login(s: AuthState, username: string, password: string): (r: AuthStep)
    ensures r.state.users == s.users
    ensures r.error.None? <==> exists i :: 0 <= i < |s.users| && CredentialsMatch(s.users[i], username, password)
    ensures r.error.Some? ==> r.error == Some(InvalidCredentials) && r.state == s
    ensures r.error.None? ==> exists i ::
      FirstCredentialMatch(s.users, username, password, i) && r.state.session == Some(Session(s.users[i].username, s.users[i].displayName))
    ensures r.error.None? ==> r.state.marker == r.state.session
  {
    var found := Find(s.users, (u: UserRecord) => CredentialsMatch(u, username, password));
    match found
    case None => AuthStep(s, Some(InvalidCredentials))
    case Some(u) =>
      var session := Some(Session(u.username, u.displayName));
      AuthStep(s.(session := session, marker := session), None)
  }

  /** `register`: a taken username throws `UsernameTaken` and changes
      nothing; a fresh one appends exactly one record stamped `now` and
      signs it in, marker included. */
  function Register(s: AuthState, username: string, password: string, displayName: string, now: int): (r: AuthStep)
    ensures Registered(s.users, username) ==> r == AuthStep(s, Some(UsernameTaken))
    ensures !Registered(s.users, username) ==>
      && r.error.None?
      && |r.state.users| == |s.users| + 1
      && r.state.users[..|s.users|] == s.users
      && r.state.users[|s.users|] == UserRecord(username, password, displayName, now)
      && r.state.session == Some(Session(username, displayName))
      && r.state.marker == r.state.session
  {
    var taken := Find(s.users, (u: UserRecord) => u.username == username);
    if taken.Some? then AuthStep(s, Some(UsernameTaken))
    else
      var users := s.users + [UserRecord(username, password, displayName, now)];
      var session := Some(Session(username, displayName));
      AuthStep(AuthState(users, session, session), None)
  }

  /** `logout`: session and marker are cleared; the user list stays. */
  function Logout(s: AuthState): (r: AuthState)
    ensures r.users == s.users && r.session.None? && r.marker.None?
  {
    s.(session := None, marker := None)
  }

  /** Logging out twice is logging out once. */
  lemma LogoutIdempotent(s: AuthState)
    ensures Logout(Logout(s)) == Logout(s)
  {
  }

  /** Every operation leaves memory and marker in agreement: a successful
      login or registration writes the marker with the session, logout
      removes both, and startup copies the marker into memory. Failed
      operations change nothing, so they keep agreement. */
  lemma OperationsKeepSynced(s: AuthState, username: string, password: string, displayName: string, now: int)
    ensures Login(s, username, password).error.None? ==> Synced(Login(s, username, password).state)
    ensures Register(s, username, password, displayName, now).error.None? ==>
      Synced(Register(s, username, password, displayName, now).state)
    ensures Synced(Logout(s))
    ensures Synced(Restore(Reload(s)))
    ensures Synced(s) ==> Synced(Login(s, username, password).state)
    ensures Synced(s) ==> Synced(Register(s, username, password, displayName, now).state)
  {
  }

  /** A reload followed by startup gives back every state whose memory
      agrees with the marker: signed in after a login or registration,
      signed out after a logout. */
  lemma RestoreAfterReload(s: AuthState)
    requires Synced(s)
    ensures Restore(Reload(s)) == s
  {
  }

  /** Right after logout, a reload finds no marker and stays signed out. */
  lemma NoSessionAfterLogoutReload(s: AuthState)
    ensures Restore(Reload(Logout(s))) == Logout(s)
    ensures Restore(Reload(Logout(s))).session.None?
  {
  }

  /** Registration keeps usernames pairwise distinct. */
  lemma RegisterKeepsUsernamesUnique(s: AuthState, username: string, password: string, displayName: string, now: int)
    requires UniqueUsernames(s.users)
    ensures UniqueUsernames(Register(s, username, password, displayName, now).state.users)
  {
  }

  /** A user who has just registered can log in with the same credentials,
      and gets the session registration gave them. */
  lemma LoginAfterRegister(s: AuthState, username: string, password: string, displayName: string, now: int)
    requires !Registered(s.users, username)
    ensures var r := Register(s, username, password, displayName, now);
      Login(r.state, username, password) == AuthStep(r.state, None)
  {
  }
}
