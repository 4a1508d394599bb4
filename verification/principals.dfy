/** `UserSecurity`, the principal carried by a token: the record, its
    defaults and its `UserDetails` accessors. */
module Principals {
  import opened Uuids
  import opened Enums

  /** Authorities are identified by their authority name. */
  datatype UserSecurity = UserSecurity(
    id: Uuid,
    sexe: Sexe,
    username: string,
    password: string,
    authorities: set<string>,
    accountNonExpired: bool,
    accountNonLocked: bool,
    credentialsNonExpired: bool,
    enabled: bool)

  /** The constructor call that leaves every defaulted parameter at its default. */
  function NewUserSecurity(id: Uuid, sexe: Sexe, username: string, password: string): (r: UserSecurity)
    ensures r.id == id && r.sexe == sexe
    ensures GetUsername(r) == username && GetPassword(r) == password
    ensures GetAuthorities(r) == {}
    ensures !r.accountNonExpired && !r.accountNonLocked && !r.credentialsNonExpired && !IsEnabled(r)
  {
    UserSecurity(id, sexe, username, password, {}, false, false, false, false)
  }

  function GetUsername(u: UserSecurity): string { u.username }

  function GetPassword(u: UserSecurity): string { u.password }

  function GetAuthorities(u: UserSecurity): set<string> { u.authorities }

  predicate IsEnabled(u: UserSecurity) { u.enabled }

  /** `isEnabled` reads the `enabled` field only: the other three flags do not
      influence it, and every value of the field is observable through it. */
  lemma IsEnabledIgnoresOtherFlags(u: UserSecurity, ane: bool, anl: bool, cne: bool, e: bool)
    ensures IsEnabled(u.(accountNonExpired := ane, accountNonLocked := anl, credentialsNonExpired := cne)) == IsEnabled(u)
    ensures IsEnabled(u.(enabled := e)) == e
  {
  }
}
