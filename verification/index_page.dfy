/** The sign-in page of `src/pages/Index.tsx`: the client-side checks run
    before `register`, and how the errors of `login` and `register` become
    the message shown under the form. */
module IndexPage {
  import opened Wrappers
  import opened Auth

  const UsernameTooShort := "Username must be at least 3 characters"
  const PasswordTooShort := "Password must be at least 6 characters"
  const NameMissing := "Please enter your name"
  const LoginFailed := "Invalid username or password"

  /** The page after a submit: the identity store's state and the error
      message shown, if any. */
  datatype Screen = Screen(state: AuthState, error: Option<string>)

  /** The registration checks, in order; only the first failure is
      reported. A whitespace-only display name passes. */
  function RegistrationProblem(username: string, password: string, displayName: string): (r: Option<string>)
    ensures r == Some(UsernameTooShort) <==> |username| < 3
    ensures r == Some(PasswordTooShort) <==> |username| >= 3 && |password| < 6
    ensures r == Some(NameMissing) <==> |username| >= 3 && |password| >= 6 && displayName == ""
    ensures r.None? <==> |username| >= 3 && |password| >= 6 && displayName != ""
  {
    if |username| < 3 then Some(UsernameTooShort)
    else if |password| < 6 then Some(PasswordTooShort)
    else if displayName == "" then Some(NameMissing)
    else None
  }

  /** `handleRegister`: a failed check shows its message and never reaches
      the store; otherwise `register` runs and the message of the error it
      throws, if any, is shown as it is. */
  function HandleRegister(s: AuthState, username: string, password: string, displayName: string, now: int): (r: Screen)
    ensures RegistrationProblem(username, password, displayName).Some? ==>
      r.state == s && r.error == RegistrationProblem(username, password, displayName)
    ensures RegistrationProblem(username, password, displayName).None? ==>
      var step := Register(s, username, password, displayName, now);
      r.state == step.state && (r.error.Some? <==> step.error.Some?)
      && (step.error.Some? ==> r.error == Some(Message(step.error.value)))
  {
    var problem := RegistrationProblem(username, password, displayName);
    if problem.Some? then Screen(s, problem)
    else
      var step := Register(s, username, password, displayName, now);
      match step.error
      case Some(e) => Screen(step.state, Some(Message(e)))
      case None => Screen(step.state, None)
  }

  /** `handleLogin`: no client-side checks; every failure shows the same
      message, whichever credential was wrong. */
  function HandleLogin(s: AuthState, username: string, password: string): (r: Screen)
    ensures r.state == Login(s, username, password).state
    ensures r.error.Some? <==> !exists i :: 0 <= i < |s.users| && CredentialsMatch(s.users[i], username, password)
    ensures r.error.Some? ==> r.error == Some(LoginFailed) && r.state == s
  {
    var step := Login(s, username, password);
    if step.error.Some? then Screen(step.state, Some(LoginFailed)) else Screen(step.state, None)
  }

  /** A well-formed registration under a taken username shows the store's
      own message and leaves users and session as they were. */
  lemma TakenUsernameShown(s: AuthState, username: string, password: string, displayName: string, now: int)
    requires |username| >= 3 && |password| >= 6 && displayName != ""
    requires Registered(s.users, username)
    ensures HandleRegister(s, username, password, displayName, now) == Screen(s, Some("Username already exists"))
  {
  }

  /** A well-formed registration under a fresh username shows no error and
      signs the new user in. */
  lemma FreshUsernameSignsIn(s: AuthState, username: string, password: string, displayName: string, now: int)
    requires |username| >= 3 && |password| >= 6 && displayName != ""
    requires !Registered(s.users, username)
    ensures var r := HandleRegister(s, username, password, displayName, now);
      r.error.None? && r.state.session == Some(Session(username, displayName))
  {
  }
}
