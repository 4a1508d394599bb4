/** `AuditDocumentCallback`: stamps a document with its creator once and
    with its last modifier on every save. The clock reading and the random
    id are parameters. */
module Audit {
  import opened Wrappers
  import opened Uuids
  import opened Principals
  import opened Users
  import opened Authentications
  import opened Extractor
  import JwtService
  import Instants
  import SecurityContextRepository
  import Text

  const SYSTEM := "system"

  /** `setCreated`: a document without id gets the fresh id and its creation
      stamp; a document with an id is returned as it is. */
  function SetCreated(document: BaseDocument, username: string, date: int, freshId: Uuid): (r: BaseDocument)
    ensures r.id.Some?
    ensures document.id.Some? ==> r == document
    ensures document.id.None? ==>
      && r.id == Some(freshId) && r.createdBy == Some(username) && r.createdDate == Some(date)
      && r.lastModifiedBy == document.lastModifiedBy && r.lastModifiedDate == document.lastModifiedDate
      && r.version == document.version
  {
    if document.id.None? then
      document.(id := Some(freshId), createdBy := Some(username), createdDate := Some(date))
    else document
  }

  /** `setLastModifiedDate`: the modification stamp is overwritten and
      nothing else changes. */
  function SetLastModifiedDate(document: BaseDocument, username: string, date: int): (r: BaseDocument)
    ensures r.lastModifiedBy == Some(username) && r.lastModifiedDate == Some(date)
    ensures r.id == document.id && r.createdBy == document.createdBy && r.createdDate == document.createdDate
    ensures r.version == document.version
  {
    document.(lastModifiedBy := Some(username), lastModifiedDate := Some(date))
  }

  /** `getCurrentAuditor`: the username of a token authentication's
      principal (a plain string principal is used as it is), `system` for
      anything else. */
  function GetCurrentAuditor(context: SecurityContext): (r: string)
    ensures context.authentication.Some? && context.authentication.value.TokenAuthentication? ==>
      r == GetUsername(GetPrincipal(context.authentication.value.auth))
    ensures !(context.authentication.Some? && context.authentication.value.TokenAuthentication?) ==> r == SYSTEM
  {
    match context.authentication
    case Some(TokenAuthentication(t)) =>
      (match Principal(TokenAuthentication(t))
       case DetailsPrincipal(details) => GetUsername(details)
       case StringPrincipal(name) => name
       case NullPrincipal => SYSTEM)
    case _ => SYSTEM
  }

  /** `username()`: the auditor of the current context, `system` without one. */
  function Auditor(context: Option<SecurityContext>): (r: string)
    ensures context.None? ==> r == SYSTEM
    ensures context.Some? ==> r == GetCurrentAuditor(context.value)
  {
    match context
    case None => SYSTEM
    case Some(c) => GetCurrentAuditor(c)
  }

  /** `onBeforeConvert`: one auditor and one instant for both stamps. */
  function OnBeforeConvert(document: BaseDocument, context: Option<SecurityContext>, now: int, freshId: Uuid): (r: BaseDocument)
    ensures r.id.Some? && r.version == document.version
    ensures r.lastModifiedBy == Some(Auditor(context)) && r.lastModifiedDate == Some(now)
    ensures document.id.None? ==> r.createdBy == r.lastModifiedBy && r.createdDate == r.lastModifiedDate
    ensures document.id.Some? ==>
      r.id == document.id && r.createdBy == document.createdBy && r.createdDate == document.createdDate
  {
    var username := Auditor(context);
    SetLastModifiedDate(SetCreated(document, username, now, freshId), username, now)
  }

  /** Creation happens once: stamping an already stamped document again is a no-op. */
  lemma SetCreatedOnce(document: BaseDocument, u1: string, d1: int, i1: Uuid, u2: string, d2: int, i2: Uuid)
    ensures SetCreated(SetCreated(document, u1, d1, i1), u2, d2, i2) == SetCreated(document, u1, d1, i1)
  {
  }

  /** Two saves in a row: id and creation stamp come from the first, the
      modification stamp from the second. */
  lemma RepeatedSaves(document: BaseDocument, c1: Option<SecurityContext>, t1: int, i1: Uuid,
                      c2: Option<SecurityContext>, t2: int, i2: Uuid)
    ensures var first := OnBeforeConvert(document, c1, t1, i1);
      var second := OnBeforeConvert(first, c2, t2, i2);
      && second.id == first.id && second.createdBy == first.createdBy && second.createdDate == first.createdDate
      && second.lastModifiedBy == Some(Auditor(c2)) && second.lastModifiedDate == Some(t2)
  {
  }

  /** A request carrying a token issued for `user` is audited under that user's username. */
  lemma AuditorOfIssuedToken(props: JwtService.JwtSecurityProperties, signer: JwtService.Signer, id: Uuid, user: UserSecurity,
                             now: Instants.Instant, headers: Headers, keyword: string, n: nat)
    requires JwtService.Sound(signer)
    requires JwtService.CreateToken(props, signer, id, user, now).Success?
    requires IsKeyword(keyword)
    requires var t := JwtService.CreateToken(props, signer, id, user, now).value.token; t != [] && Text.NoSpace(t)
    requires GetFirst(headers, AUTHORIZATION) == Some(keyword + Text.Spaces(n) + JwtService.CreateToken(props, signer, id, user, now).value.token)
    ensures var loaded := SecurityContextRepository.Load(props, signer, headers);
      loaded.Success? && loaded.value.Some? && Auditor(loaded.value) == GetUsername(user)
  {
    SecurityContextRepository.LoadIssuedToken(props, signer, id, user, now, headers, keyword, n);
  }
}
