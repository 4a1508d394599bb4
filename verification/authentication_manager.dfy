/** `AuthenticationManager.authenticate`: turns the credential of an
    incoming authentication into a decoded `UserTokenAuthentication`. */
module AuthenticationManager {
  import opened Wrappers
  import Instants
  import opened Errors
  import opened JwtService
  import opened Authentications
  import Json

  /** `authentication.credentials.toString()`: a missing credential is a
      null whose text is "null". */
  function CredentialText(auth: Authentication): (t: string)
    ensures Credentials(auth).Some? ==> t == Credentials(auth).value
    ensures Credentials(auth).None? ==> t == Json.NULL_TEXT
  {
    match Credentials(auth)
    case Some(t) => t
    case None => Json.NULL_TEXT
  }

  /** The credential's text is decoded as a token; the result carries the
      decoded principal and that same text, and a decoding failure is the
      manager's failure. */
  function Authenticate(props: JwtSecurityProperties, signer: Signer, auth: Authentication): (r: Try<UserTokenAuthentication>)
    ensures var decoded := CreateUserSecurityFromToken(props, signer, CredentialText(auth));
      && (r.Success? <==> decoded.Success?)
      && (r.Success? ==> GetPrincipal(r.value) == decoded.value && GetCredentials(r.value) == CredentialText(auth))
      && (r.Failure? ==> r.error == decoded.error)
  {
    var t := CredentialText(auth);
    var user :- CreateUserSecurityFromToken(props, signer, t);
    Success(UserTokenAuthentication(user, t))
  }

  /** A token issued by `createToken` authenticates as the issued principal
      (id replaced, password emptied), keeping the token as credential; the
      result is authenticated exactly when the user is enabled and has a role. */
  lemma AuthenticateIssuedToken(props: JwtSecurityProperties, signer: Signer, id: Uuids.Uuid, user: Principals.UserSecurity, now: Instants.Instant, principal: PrincipalValue)
    requires Sound(signer)
    requires CreateToken(props, signer, id, user, now).Success?
    ensures var t := CreateToken(props, signer, id, user, now).value.token;
      var r := Authenticate(props, signer, PreAuthentication(principal, Some(t)));
      && r == Success(UserTokenAuthentication(Decoded(id, user), t))
      && (IsAuthenticated(r.value) <==> user.enabled && user.authorities != {})
  {
    TokenRoundTrip(props, signer, id, user, now);
  }
}
