/** The method-security scopes of the profile service: administrator,
    owner of the document, and the `@AdminOrMe` expression combining them. */
module Scope {
  import opened Wrappers
  import opened Uuids
  import Enums
  import opened Principals
  import opened Users
  import UserMapper

  const ME_EXPRESSION := "T(mj.carthy.profileservice.securities.scope.Scope).me(principal, #document)"
  const ADMIN_EXPRESSION := "T(mj.carthy.profileservice.securities.scope.Scope).admin(principal)"
  const ADMIN_OR_ME := ADMIN_EXPRESSION + "||" + ME_EXPRESSION

  /** Some authority is named exactly `ADMIN`. */
  predicate IsUserAdmin(user: UserSecurity)
  {
    Enums.RoleName(Enums.ADMIN) in GetAuthorities(user)
  }

  predicate Admin(user: UserSecurity)
  {
    IsUserAdmin(user)
  }

  /** The principal is the document's owner; a document without id has none. */
  predicate Me(user: UserSecurity, document: User)
  {
    document.base.id == Some(user.id)
  }

  /** `adminOrMe` over any document type, the id read through `idGetter`. */
  predicate AdminOrMe<T>(idGetter: T -> Option<Uuid>, user: UserSecurity, document: T)
  {
    IsUserAdmin(user) || idGetter(document) == Some(user.id)
  }

  /** The two scope calls the expression can make. */
  datatype ScopeCall = AdminCall | MeCall

  /** Evaluating `ADMIN_OR_ME` for `principal` and `#document`: the verdict
      and the calls made, in order; `||` skips `me` once `admin` holds. */
  function EvaluateAdminOrMe(principal: UserSecurity, document: User): (r: (bool, seq<ScopeCall>))
    ensures r.0 <==> Admin(principal) || Me(principal, document)
    ensures |r.1| > 0 && r.1[0] == AdminCall
    ensures r.1 == [AdminCall] <==> Admin(principal)
    ensures r.1 == [AdminCall, MeCall] <==> !Admin(principal)
  {
    if Admin(principal) then (true, [AdminCall])
    else (Me(principal, document), [AdminCall, MeCall])
  }

  /** The expression and the generic `adminOrMe` agree on users, read by their id. */
  lemma ExpressionIsAdminOrMe(principal: UserSecurity, document: User)
    ensures EvaluateAdminOrMe(principal, document).0 == AdminOrMe((d: User) => d.base.id, principal, document)
  {
  }

  /** An administrator is allowed on every document; anyone else exactly on
      the documents whose id is theirs. */
  lemma AdminOrMeCases<T>(idGetter: T -> Option<Uuid>, user: UserSecurity, document: T)
    ensures IsUserAdmin(user) ==> AdminOrMe(idGetter, user, document)
    ensures !IsUserAdmin(user) ==> (AdminOrMe(idGetter, user, document) <==> idGetter(document) == Some(user.id))
  {
  }

  /** Granting more authorities never withdraws a permission. */
  lemma AdminOrMeMonotone<T>(idGetter: T -> Option<Uuid>, user: UserSecurity, document: T, extra: set<string>)
    requires AdminOrMe(idGetter, user, document)
    ensures AdminOrMe(idGetter, user.(authorities := user.authorities + extra), document)
  {
  }

  /** Through the security projection of a saved user: the user is an
      administrator exactly when granted the `ADMIN` role, and is always the
      owner of its own document. */
  lemma ScopesOfProjection(u: User)
    requires u.base.id.Some?
    ensures UserMapper.ToUserSecurity(u).Success?
    ensures IsUserAdmin(UserMapper.ToUserSecurity(u).value) <==> Authority(Enums.ADMIN) in u.authorities
    ensures Me(UserMapper.ToUserSecurity(u).value, u)
  {
    UserMapper.AuthorityNamesFaithful(u.authorities, Enums.ADMIN);
  }
}
