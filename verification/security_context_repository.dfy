/** `SecurityContextRepository`: builds the security context of a request
    from its `Authorization` header; saving is not implemented. */
module SecurityContextRepository {
  import opened Wrappers
  import Instants
  import opened Errors
  import opened Text
  import opened JwtService
  import opened Extractor
  import opened Authentications
  import AuthenticationManager

  /** `load`: no header gives no context; a header the extractor refuses,
      or a token that does not decode, fails; otherwise the context holds the
      authentication the manager built from a principal-less pre-authentication. */
  function Load(props: JwtSecurityProperties, signer: Signer, headers: Headers): (r: Try<Option<SecurityContext>>)
    ensures GetFirst(headers, AUTHORIZATION).None? ==> r == Success(None)
    ensures Extract(headers, AUTHORIZATION).Failure? ==> r == Failure(Extract(headers, AUTHORIZATION).error)
    ensures Extract(headers, AUTHORIZATION) == Success(None) ==> r == Success(None)
    ensures Extract(headers, AUTHORIZATION).Success? && Extract(headers, AUTHORIZATION).value.Some? ==>
      var t := Extract(headers, AUTHORIZATION).value.value;
      var decoded := CreateUserSecurityFromToken(props, signer, t);
      && (decoded.Failure? ==> r == Failure(decoded.error))
      && (decoded.Success? ==>
            r == Success(Some(SecurityContext(Some(TokenAuthentication(UserTokenAuthentication(decoded.value, t)))))))
  {
    var token :- Extract(headers, AUTHORIZATION);
    match token
    case None => Success(None)
    case Some(t) =>
      var auth :- AuthenticationManager.Authenticate(props, signer, PreAuthentication(NullPrincipal, Some(t)));
      Success(Some(SecurityContext(Some(TokenAuthentication(auth)))))
  }

  /** `save` is a `TODO()`: it always throws. */
  function Save(context: SecurityContext): (r: Try<()>)
    ensures r.Failure? && r.error.NotImplemented?
  {
    Failure(NotImplemented("An operation is not implemented: Not yet implemented"))
  }

  /** End to end: a request whose first `Authorization` header is the keyword,
      some spaces and a token issued by `createToken` loads a context whose
      authentication is the issued principal; it is authenticated exactly when
      the user is enabled and holds a role. */
  lemma LoadIssuedToken(props: JwtSecurityProperties, signer: Signer, id: Uuids.Uuid, user: Principals.UserSecurity,
                        now: Instants.Instant, headers: Headers, keyword: string, n: nat)
    requires Sound(signer)
    requires CreateToken(props, signer, id, user, now).Success?
    requires IsKeyword(keyword)
    requires var t := CreateToken(props, signer, id, user, now).value.token; t != [] && NoSpace(t)
    requires GetFirst(headers, AUTHORIZATION) == Some(keyword + Spaces(n) + CreateToken(props, signer, id, user, now).value.token)
    ensures var t := CreateToken(props, signer, id, user, now).value.token;
      var r := Load(props, signer, headers);
      && r == Success(Some(SecurityContext(Some(TokenAuthentication(UserTokenAuthentication(Decoded(id, user), t))))))
      && (Authenticated(r.value.value.authentication.value) <==> user.enabled && user.authorities != {})
  {
    var t := CreateToken(props, signer, id, user, now).value.token;
    ParseBearer(keyword, n, t);
    AuthenticationManager.AuthenticateIssuedToken(props, signer, id, user, now, NullPrincipal);
  }

  /** A header holding the keyword and nothing else is an error, not an anonymous request. */
  lemma LoadKeywordOnly(props: JwtSecurityProperties, signer: Signer, headers: Headers, keyword: string, n: nat)
    requires IsKeyword(keyword)
    requires GetFirst(headers, AUTHORIZATION) == Some(keyword + Spaces(n))
    ensures Load(props, signer, headers) == Failure(IllegalArgument(NotMatch(keyword + Spaces(n))))
  {
    ParseBearerWithoutToken(keyword, n);
  }
}
