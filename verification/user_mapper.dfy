/** The projections of a stored `User`: the security principal put into
    tokens and the output view returned by the API. */
module UserMapper {
  import opened Wrappers
  import opened Errors
  import opened Uuids
  import opened Enums
  import opened Principals
  import opened Users

  /** The API view: no password, and `enabled` is the derived flag. */
  datatype UserOutputDto = UserOutputDto(
    id: Uuid,
    username: string,
    sexe: Sexe,
    accountNonExpired: bool,
    accountNonLocked: bool,
    credentialsNonExpired: bool,
    enabled: bool,
    authorities: set<Authority>,
    connections: set<Connection>)

  /** The authority names of a set of granted roles. */
  function AuthorityNames(s: set<Authority>): (r: set<string>)
    ensures forall a :: a in s ==> AuthorityName(a) in r
    ensures forall n :: n in r ==> (Authority(ADMIN) in s && n == "ADMIN") || (Authority(USER) in s && n == "USER")
  {
    set a | a in s :: AuthorityName(a)
  }

  /** `toUserSecurity`: fails on a user that was never saved (`id!!`);
      otherwise copies the identity, the role names and the three flags,
      blanks the password and takes `enabled` from `User.isEnabled`. */
  function ToUserSecurity(u: User): (r: Try<UserSecurity>)
    ensures r.Failure? <==> u.base.id.None?
    ensures r.Failure? ==> r.error == NullPointer("id")
    ensures r.Success? ==>
      && Some(r.value.id) == u.base.id
      && GetUsername(r.value) == u.username && r.value.sexe == u.sexe
      && GetPassword(r.value) == ""
      && GetAuthorities(r.value) == AuthorityNames(u.authorities)
      && r.value.accountNonExpired == u.accountNonExpired
      && r.value.accountNonLocked == u.accountNonLocked
      && r.value.credentialsNonExpired == u.credentialsNonExpired
      && (Principals.IsEnabled(r.value) <==> Users.IsEnabled(u))
  {
    match u.base.id
    case None => Failure(NullPointer("id"))
    case Some(id) =>
      Success(UserSecurity(id, u.sexe, u.username, "", AuthorityNames(u.authorities),
                           u.accountNonExpired, u.accountNonLocked, u.credentialsNonExpired, Users.IsEnabled(u)))
  }

  /** `toUserOutputDto`: the same null-id failure, every public field copied
      and `enabled` derived. */
  function ToUserOutputDto(u: User): (r: Try<UserOutputDto>)
    ensures r.Failure? <==> u.base.id.None?
    ensures r.Failure? ==> r.error == NullPointer("id")
    ensures r.Success? ==>
      && Some(r.value.id) == u.base.id
      && r.value.username == u.username && r.value.sexe == u.sexe
      && r.value.authorities == u.authorities && r.value.connections == u.connections
      && r.value.accountNonExpired == u.accountNonExpired
      && r.value.accountNonLocked == u.accountNonLocked
      && r.value.credentialsNonExpired == u.credentialsNonExpired
      && (r.value.enabled <==> Users.IsEnabled(u))
  {
    match u.base.id
    case None => Failure(NullPointer("id"))
    case Some(id) =>
      Success(UserOutputDto(id, u.username, u.sexe, u.accountNonExpired, u.accountNonLocked,
                            u.credentialsNonExpired, Users.IsEnabled(u), u.authorities, u.connections))
  }

  /** Role names lose nothing: a role is granted to the user exactly when its
      name is among the principal's authorities. */
  lemma AuthorityNamesFaithful(s: set<Authority>, role: UserRole)
    ensures Authority(role) in s <==> RoleName(role) in AuthorityNames(s)
  {
    if RoleName(role) in AuthorityNames(s) {
      var a :| a in s && AuthorityName(a) == RoleName(role);
      assert a.role == role;
    }
  }

  /** The two projections agree: they fail together, and on success they
      expose the same id, username, sexe, flags and roles. */
  lemma ProjectionsAgree(u: User)
    ensures ToUserSecurity(u).Success? <==> ToUserOutputDto(u).Success?
    ensures ToUserSecurity(u).Success? ==>
      var p := ToUserSecurity(u).value;
      var d := ToUserOutputDto(u).value;
      && p.id == d.id && GetUsername(p) == d.username && p.sexe == d.sexe
      && (Principals.IsEnabled(p) <==> d.enabled)
      && GetAuthorities(p) == AuthorityNames(d.authorities)
  {
  }
}
