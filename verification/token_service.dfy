/** `TokenService.createToken`, the login flow: look the user up, match the
    password, record the attempt and save, then reject a wrong password, a
    pending e-mail verification or a disabled account, and only then issue
    a token. The password encoder, the connection factory, the token
    factory, the clock and the fresh id are parameters. */
module TokenService {
  import opened Wrappers
  import opened Errors
  import opened Uuids
  import opened Enums
  import opened Principals
  import opened Users
  import opened Authentications
  import opened JwtService
  import Audit
  import UserMapper

  const VERIFY_YOUR_EMAIL := "Verify your email"
  const USER_NOT_ENABLE_MESSAGE := "User is not enable"

  /** What `awaitSingle` throws on an empty result. */
  const AWAIT_SINGLE_EMPTY := "No value received via onNext for awaitSingle"

  /** The users collection, keyed by the (uniquely indexed) username. */
  type Repository = map<string, User>

  /** The repository after the call, and the token or the exception. */
  datatype LoginOutcome = LoginOutcome(repo: Repository, result: Try<Token>)

  /** `invalidAuth`: the rejection of an unknown user or a wrong password. */
  function InvalidAuth(username: string): (e: Exception)
    ensures e.AccessDenied? && e.code == AUTHENTICATION_DENIED
    ensures HttpCode(e) == Some(401)
  {
    AccessDenied(AUTHENTICATION_DENIED, "Username " + username + " or password is not valid")
  }

  /** `verifyUserIsEnable`: a pending e-mail verification is reported before
      the enabled flag is looked at. */
  function VerifyUserIsEnable(user: User): (r: Try<()>)
    ensures r.Success? <==> EMAIL_VERIFICATION !in user.codeByReasons && Users.IsEnabled(user)
    ensures EMAIL_VERIFICATION in user.codeByReasons ==>
      r == Failure(UnprocessableEntity(VERIFY_YOUR_EMAIL, EMAIL_VERIFICATION_FAILED))
    ensures EMAIL_VERIFICATION !in user.codeByReasons && !Users.IsEnabled(user) ==>
      r == Failure(UnprocessableEntity(USER_NOT_ENABLE_MESSAGE, USER_NOT_ENABLE))
  {
    if EMAIL_VERIFICATION in user.codeByReasons then
      Failure(UnprocessableEntity(VERIFY_YOUR_EMAIL, EMAIL_VERIFICATION_FAILED))
    else if !Users.IsEnabled(user) then
      Failure(UnprocessableEntity(USER_NOT_ENABLE_MESSAGE, USER_NOT_ENABLE))
    else Success(())
  }

  /** `save`: the audit callback stamps the document, which is then stored
      under its username. */
  function Save(repo: Repository, user: User, context: Option<SecurityContext>, now: int, freshId: Uuid): (r: (Repository, User))
    ensures r.1.base.id.Some?
    ensures r.0 == repo[user.username := r.1]
    ensures r.1 == user.(base := Audit.OnBeforeConvert(user.base, context, now, freshId))
  {
    var saved := user.(base := Audit.OnBeforeConvert(user.base, context, now, freshId));
    (repo[user.username := saved], saved)
  }

  /** The flow once the user has been found. */
  function LoginFound(repo: Repository, user: User, matches: (string, string) -> bool,
                      connectionCreator: bool -> Connection, tokenCreator: (Uuid, UserSecurity) -> Try<Token>,
                      password: string, context: Option<SecurityContext>, now: int, freshId: Uuid): (r: LoginOutcome)
    ensures var valid := matches(password, user.password);
      var saved := user.(connections := user.connections + {connectionCreator(valid)},
                         base := Audit.OnBeforeConvert(user.base, context, now, freshId));
      && r.repo == repo[user.username := saved]
      && (!valid ==> r.result == Failure(InvalidAuth(user.username)))
      && (valid ==> VerifyUserIsEnable(saved).Failure? ==> r.result == Failure(VerifyUserIsEnable(saved).error))
      && (valid && VerifyUserIsEnable(saved).Success? ==>
            UserMapper.ToUserSecurity(saved).Success?
            && r.result == tokenCreator(saved.base.id.value, UserMapper.ToUserSecurity(saved).value))
  {
    var valid := matches(password, user.password);
    var attempted := user.(connections := user.connections + {connectionCreator(valid)});
    var (repo', saved) := Save(repo, attempted, context, now, freshId);
    if !valid then LoginOutcome(repo', Failure(InvalidAuth(user.username)))
    else match VerifyUserIsEnable(saved)
      case Failure(e) => LoginOutcome(repo', Failure(e))
      case Success(_) =>
        match UserMapper.ToUserSecurity(saved)
        case Failure(e) => LoginOutcome(repo', Failure(e))
        case Success(security) => LoginOutcome(repo', tokenCreator(security.id, security))
  }

  /** `createToken` as written: an unknown username ends in the exception of
      `awaitSingle` on an empty result; the `?: invalidAuth` fallback is never
      reached. */
  function LoginAsWritten(repo: Repository, matches: (string, string) -> bool,
                          connectionCreator: bool -> Connection, tokenCreator: (Uuid, UserSecurity) -> Try<Token>,
                          username: string, password: string, context: Option<SecurityContext>, now: int, freshId: Uuid): (r: LoginOutcome)
    ensures username !in repo ==> r == LoginOutcome(repo, Failure(NoSuchElement(AWAIT_SINGLE_EMPTY)))
    ensures username in repo ==> r == LoginFound(repo, repo[username], matches, connectionCreator, tokenCreator, password, context, now, freshId)
  {
    if username !in repo then LoginOutcome(repo, Failure(NoSuchElement(AWAIT_SINGLE_EMPTY)))
    else LoginFound(repo, repo[username], matches, connectionCreator, tokenCreator, password, context, now, freshId)
  }

  /** `createToken` as intended: an unknown username is rejected like a wrong
      password, with nothing saved and no token issued. */
  function Login(repo: Repository, matches: (string, string) -> bool,
                 connectionCreator: bool -> Connection, tokenCreator: (Uuid, UserSecurity) -> Try<Token>,
                 username: string, password: string, context: Option<SecurityContext>, now: int, freshId: Uuid): (r: LoginOutcome)
    ensures username !in repo ==> r == LoginOutcome(repo, Failure(InvalidAuth(username)))
    ensures username in repo ==> r == LoginFound(repo, repo[username], matches, connectionCreator, tokenCreator, password, context, now, freshId)
  {
    if username !in repo then LoginOutcome(repo, Failure(InvalidAuth(username)))
    else LoginFound(repo, repo[username], matches, connectionCreator, tokenCreator, password, context, now, freshId)
  }

  /** The two versions differ only on an unknown username: as written the
      caller sees an exception without an HTTP status (a server error),
      instead of the 401 of an authentication failure. */
  lemma UnknownUserAsWritten(repo: Repository, matches: (string, string) -> bool,
                             connectionCreator: bool -> Connection, tokenCreator: (Uuid, UserSecurity) -> Try<Token>,
                             username: string, password: string, context: Option<SecurityContext>, now: int, freshId: Uuid)
    requires username !in repo
    ensures var r := LoginAsWritten(repo, matches, connectionCreator, tokenCreator, username, password, context, now, freshId);
      r.result.Failure? && HttpCode(r.result.error) == None
    ensures var r := Login(repo, matches, connectionCreator, tokenCreator, username, password, context, now, freshId);
      r.result.Failure? && HttpCode(r.result.error) == Some(401) && r.repo == repo
  {
  }

  /** Every attempt on a known user is recorded and saved, whatever its
      outcome: the stored user gains the connection, with `isValidPassword`
      equal to the password check, and keeps a non-null id; other users are untouched. */
  lemma EveryAttemptIsRecorded(repo: Repository, matches: (string, string) -> bool,
                               connectionCreator: bool -> Connection, tokenCreator: (Uuid, UserSecurity) -> Try<Token>,
                               username: string, password: string, context: Option<SecurityContext>, now: int, freshId: Uuid)
    requires username in repo && repo[username].username == username
    ensures var r := Login(repo, matches, connectionCreator, tokenCreator, username, password, context, now, freshId);
      var valid := matches(password, repo[username].password);
      && r.repo.Keys == repo.Keys
      && r.repo[username].connections == repo[username].connections + {connectionCreator(valid)}
      && r.repo[username].base.id.Some?
      && (forall k :: k in repo && k != username ==> r.repo[k] == repo[k])
  {
  }

  /** The order of the checks: a wrong password is reported as such even
      for a disabled or unverified account; a pending e-mail verification is
      reported even for a disabled account. */
  lemma CheckOrder(repo: Repository, matches: (string, string) -> bool,
                   connectionCreator: bool -> Connection, tokenCreator: (Uuid, UserSecurity) -> Try<Token>,
                   username: string, password: string, context: Option<SecurityContext>, now: int, freshId: Uuid)
    requires username in repo && repo[username].username == username
    ensures var r := Login(repo, matches, connectionCreator, tokenCreator, username, password, context, now, freshId);
      var user := repo[username];
      && (!matches(password, user.password) ==> r.result == Failure(InvalidAuth(username)))
      && (matches(password, user.password) && EMAIL_VERIFICATION in user.codeByReasons ==>
            r.result == Failure(UnprocessableEntity(VERIFY_YOUR_EMAIL, EMAIL_VERIFICATION_FAILED)))
      && (matches(password, user.password) && EMAIL_VERIFICATION !in user.codeByReasons && !Users.IsEnabled(user) ==>
            r.result == Failure(UnprocessableEntity(USER_NOT_ENABLE_MESSAGE, USER_NOT_ENABLE)))
  {
  }

  /** A token is issued only when every check passed, and then it is the
      token factory's result for the saved user's id and projection: an
      enabled principal with an empty password and the user's role names. */
  lemma TokenOnlyOnSuccess(repo: Repository, matches: (string, string) -> bool,
                           connectionCreator: bool -> Connection, tokenCreator: (Uuid, UserSecurity) -> Try<Token>,
                           username: string, password: string, context: Option<SecurityContext>, now: int, freshId: Uuid)
    requires Login(repo, matches, connectionCreator, tokenCreator, username, password, context, now, freshId).result.Success?
    ensures username in repo
    ensures var user := repo[username];
      && matches(password, user.password)
      && EMAIL_VERIFICATION !in user.codeByReasons
      && Users.IsEnabled(user)
    ensures var r := Login(repo, matches, connectionCreator, tokenCreator, username, password, context, now, freshId);
      var saved := r.repo[repo[username].username];
      var security := UserMapper.ToUserSecurity(saved);
      && security.Success?
      && r.result == tokenCreator(saved.base.id.value, security.value)
      && Principals.IsEnabled(security.value) && GetPassword(security.value) == ""
      && Principals.GetAuthorities(security.value) == UserMapper.AuthorityNames(repo[username].authorities)
  {
    var user := repo[username];
    var valid := matches(password, user.password);
    var saved := user.(connections := user.connections + {connectionCreator(valid)},
                       base := Audit.OnBeforeConvert(user.base, context, now, freshId));
    assert VerifyUserIsEnable(saved).Success?;
  }
}
