/** `UserTokenAuthentication` and the part of Spring Security's
    `Authentication` / `SecurityContext` abstraction the filter chain uses. */
module Authentications {
  import opened Wrappers
  import opened Principals

  /** A principal decoded from a token, together with the raw token text. */
  datatype UserTokenAuthentication = UserTokenAuthentication(principal: UserSecurity, token: string)

  /** The token is the credential. */
  function GetCredentials(a: UserTokenAuthentication): string { a.token }

  function GetPrincipal(a: UserTokenAuthentication): UserSecurity { a.principal }

  /** The authorities handed to `AbstractAuthenticationToken`: the principal's. */
  function GetAuthorities(a: UserTokenAuthentication): set<string> { Principals.GetAuthorities(a.principal) }

  /** Authenticated exactly when the principal is enabled and holds at least one authority. */
  predicate IsAuthenticated(a: UserTokenAuthentication)
  {
    IsEnabled(a.principal) && GetAuthorities(a) != {}
  }

  /** What an `Authentication` may carry as principal. */
  datatype PrincipalValue = NullPrincipal | StringPrincipal(name: string) | DetailsPrincipal(details: UserSecurity)

  /** The two authentications of the chain: the decoded token, and the
      two-argument `UsernamePasswordAuthenticationToken` built before
      authentication, which is never authenticated. */
  datatype Authentication =
    | TokenAuthentication(auth: UserTokenAuthentication)
    | PreAuthentication(principal: PrincipalValue, credentials: Option<string>)

  function Principal(a: Authentication): (r: PrincipalValue)
    ensures a.TokenAuthentication? ==> r == DetailsPrincipal(GetPrincipal(a.auth))
    ensures a.PreAuthentication? ==> r == a.principal
  {
    match a
    case TokenAuthentication(t) => DetailsPrincipal(GetPrincipal(t))
    case PreAuthentication(p, _) => p
  }

  function Credentials(a: Authentication): (r: Option<string>)
    ensures a.TokenAuthentication? ==> r == Some(GetCredentials(a.auth))
    ensures a.PreAuthentication? ==> r == a.credentials
  {
    match a
    case TokenAuthentication(t) => Some(GetCredentials(t))
    case PreAuthentication(_, c) => c
  }

  predicate Authenticated(a: Authentication)
  {
    a.TokenAuthentication? && IsAuthenticated(a.auth)
  }

  /** `SecurityContextImpl`: an optional authentication. */
  datatype SecurityContext = SecurityContext(authentication: Option<Authentication>)

  /** Only a token authentication can be authenticated, and it is so exactly
      when its principal is enabled with a non-empty authority set; the token
      text, the lock flag and the two expiry flags play no part. */
  lemma AuthenticatedOnlyByEnabledRoles(a: Authentication, token: string, ane: bool, anl: bool, cne: bool)
    ensures Authenticated(a) <==> a.TokenAuthentication? && a.auth.principal.enabled && a.auth.principal.authorities != {}
    ensures a.PreAuthentication? ==> !Authenticated(a)
    ensures a.TokenAuthentication? ==>
      var p := a.auth.principal.(accountNonExpired := ane, accountNonLocked := anl, credentialsNonExpired := cne);
      Authenticated(TokenAuthentication(UserTokenAuthentication(p, token))) == Authenticated(a)
  {
    if a.TokenAuthentication? {
      IsEnabledIgnoresOtherFlags(a.auth.principal, ane, anl, cne, a.auth.principal.enabled);
    }
  }
}
