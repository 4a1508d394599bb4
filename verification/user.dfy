/** The stored `User` document of the profile service and the audited base
    document it extends. */
module Users {
  import opened Wrappers
  import opened Uuids
  import opened Enums

  /** The audited fields every stored document carries; all start out null. */
  datatype BaseDocument = BaseDocument(
    id: Option<Uuid>,
    createdBy: Option<string>,
    lastModifiedBy: Option<string>,
    createdDate: Option<int>,
    lastModifiedDate: Option<int>,
    version: Option<int>)

  const EmptyBase := BaseDocument(None, None, None, None, None, None)

  /** A granted role; its authority name is the role's name. */
  datatype Authority = Authority(role: UserRole)

  function AuthorityName(a: Authority): string { RoleName(a.role) }

  /** What the connection records about the client, kept as opaque text fields. */
  datatype ClientInfo = ClientInfo(local: seq<Option<string>>, system: Option<string>, browser: seq<Option<string>>)

  /** One login attempt: whether the password matched, when, and from where. */
  datatype Connection = Connection(isValidPassword: bool, date: int, client: ClientInfo)

  /** A pending verification code; only its presence under a reason matters here. */
  datatype Code = Code(value: string)

  datatype User = User(
    base: BaseDocument,
    username: string,
    password: string,
    sexe: Sexe,
    accountNonExpired: bool,
    accountNonLocked: bool,
    credentialsNonExpired: bool,
    authorities: set<Authority>,
    connections: set<Connection>,
    codeByReasons: map<CodeReason, Code>)

  /** The constructor call with every defaulted parameter left at its default. */
  function NewUser(username: string, password: string, sexe: Sexe): (r: User)
    ensures r.base == EmptyBase
    ensures r.username == username && r.password == password && r.sexe == sexe
    ensures !r.accountNonExpired && !r.accountNonLocked && !r.credentialsNonExpired
    ensures r.authorities == {} && r.connections == {} && r.codeByReasons == map[]
  {
    User(EmptyBase, username, password, sexe, false, false, false, {}, {}, map[])
  }

  /** `isEnabled` is derived: the account is neither locked nor expired. */
  predicate IsEnabled(u: User)
  {
    u.accountNonLocked && u.accountNonExpired
  }

  /** A user is enabled exactly when it is unlocked and unexpired; the
      credentials flag plays no part, and a freshly constructed user is not enabled. */
  lemma IsEnabledCharacterization(u: User, cne: bool, username: string, password: string, sexe: Sexe)
    ensures IsEnabled(u) <==> u.accountNonLocked && u.accountNonExpired
    ensures IsEnabled(u.(credentialsNonExpired := cne)) == IsEnabled(u)
    ensures !IsEnabled(NewUser(username, password, sexe))
  {
  }
}
