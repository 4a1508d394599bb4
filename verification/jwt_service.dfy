/** `JwtAuthenticateTokenService`: the claims a token carries for a
    principal, the token's expiry, and the principal rebuilt from a token.

    HS512 signing, compact serialization and JSON text are abstracted by a
    `Signer` whose verification gives back exactly the claims body that was
    signed. The claims layer is modelled exactly: the JSON value each claim
    becomes on the wire, and the decoder's reading of those values. */
module JwtService {
  import opened Wrappers
  import opened Errors
  import opened Text
  import opened Uuids
  import opened Enums
  import opened Json
  import opened Principals
  import opened JavaLong
  import opened Instants

  /* Claim names of the wire contract. */
  const ID := "id"
  const USERNAME := "username"
  const SEXE := "sexe"
  const ACCOUNT_NON_EXPIRED := "accountNonExpired"
  const ACCOUNT_NON_LOCKED := "accountNonLocked"
  const CREDENTIALS_NON_EXPIRED := "credentialsNonExpired"
  const ENABLE := "enable"
  const TOKEN_CREATE_TIME := "TOKEN_CREATE_TIME"
  const ROLES := "roles"

  /* Registered claims the token builder adds (RFC 7519 section 4.1). */
  const SUBJECT := "sub"
  const ISSUED_AT := "iat"
  const EXPIRATION := "exp"

  /** The nine claims `getClaims` puts in the body. */
  const ClaimKeys: set<string> := {ID, USERNAME, SEXE, ROLES, ACCOUNT_NON_EXPIRED, ACCOUNT_NON_LOCKED,
                                   CREDENTIALS_NON_EXPIRED, ENABLE, TOKEN_CREATE_TIME}

  /** jjwt's `setIssuedAt`/`setExpiration`: the `Date`'s epoch milliseconds
      divided by 1000 in `long` arithmetic, so rounded toward zero. */
  function EpochSeconds(millis: Long): (s: Long)
    ensures millis >= 0 ==> 0 <= s && s * 1_000 <= millis < s * 1_000 + 1_000
    ensures millis < 0 ==> s <= 0 && s * 1_000 - 1_000 < millis <= s * 1_000
  {
    JavaDiv(millis, 1_000)
  }

  /** `JwtSecurityProperties`: the HS512 key and the token lifetime, a `Long` count of `unit`s. */
  datatype JwtSecurityProperties = JwtSecurityProperties(signingKey: string, validity: Long, unit: ChronoUnit)

  /** The configuration defaults: validity of one day. */
  const DefaultProperties := JwtSecurityProperties("g~DS<EHd)Vr+C&#8:[ba", 1, DAYS)

  /** The issued token and the instant it expires at. */
  datatype Token = Token(token: string, expiryTime: Instant)

  /** A claim value as `getClaims` stores it, before JSON serialization. */
  datatype Claim = CUuid(u: Uuid) | CString(s: string) | CSexe(x: Sexe) | CRoles(names: set<string>) | CBool(b: bool)

  /** `getClaims`: the nine claims describing `user`, with the issue time
      truncated to the minute. */
  function GetClaims(id: Uuid, user: UserSecurity, roles: set<string>, now: Instant): (r: map<string, Claim>)
    ensures r.Keys == ClaimKeys
    ensures r[ID] == CUuid(id) && r[ROLES] == CRoles(roles)
    ensures r[USERNAME] == CString(GetUsername(user)) && r[SEXE] == CSexe(user.sexe)
    ensures r[ENABLE] == CBool(IsEnabled(user))
    ensures r[ACCOUNT_NON_EXPIRED] == CBool(user.accountNonExpired)
    ensures r[ACCOUNT_NON_LOCKED] == CBool(user.accountNonLocked)
    ensures r[CREDENTIALS_NON_EXPIRED] == CBool(user.credentialsNonExpired)
    ensures r[TOKEN_CREATE_TIME] == CString(IntToString(TruncatedToMinutes(now)))
  {
    map[ID := CUuid(id),
        USERNAME := CString(GetUsername(user)),
        SEXE := CSexe(user.sexe),
        ROLES := CRoles(roles),
        ACCOUNT_NON_EXPIRED := CBool(user.accountNonExpired),
        ACCOUNT_NON_LOCKED := CBool(user.accountNonLocked),
        CREDENTIALS_NON_EXPIRED := CBool(user.credentialsNonExpired),
        ENABLE := CBool(IsEnabled(user)),
        TOKEN_CREATE_TIME := CString(IntToString(TruncatedToMinutes(now)))]
  }

  /** Some listing of a set, each element once: the order a hash set is serialized in. */
  ghost function Enumerate(s: set<string>): (r: seq<string>)
    ensures |r| == |s|
    ensures forall x :: x in r <==> x in s
    decreases |s|
  {
    if s == {} then [] else var x :| x in s; [x] + Enumerate(s - {x})
  }

  /** The JSON value a claim becomes in the token body. Each value is one
      the decoder reads back: the UUID and sexe texts parse to what was
      written, a flag coerces to itself, and the role set is listed with
      every name once. */
  ghost function ToJson(c: Claim): (r: Json)
    ensures c.CUuid? ==> r.JStr? && Uuids.FromString(r.s) == Success(c.u)
    ensures c.CString? ==> r == JStr(c.s)
    ensures c.CSexe? ==> r.JStr? && SexeValueOf(r.s) == Success(c.x)
    ensures c.CBool? ==> CoerceBoolean(r) == c.b
    ensures c.CRoles? ==> r.JArr? && |r.items| == |c.names|
    ensures c.CRoles? ==> forall i :: 0 <= i < |r.items| ==> r.items[i].JStr?
    ensures c.CRoles? ==> forall x :: JStr(x) in r.items <==> x in c.names
  {
    match c
    case CUuid(u) =>
      Uuids.RoundTrip(u);
      JStr(Uuids.ToString(u))
    case CString(s) => JStr(s)
    case CSexe(x) =>
      SexeValueOfName(x);
      JStr(SexeName(x))
    case CRoles(names) =>
      var listed := Enumerate(names);
      var items := seq(|listed|, i requires 0 <= i < |listed| => JStr(listed[i]));
      ListedNames(listed, items);
      JArr(items)
    case CBool(b) =>
      assert !EqualsIgnoreCase("false", "true") by { assert LowerAscii('f') != LowerAscii('t'); }
      JBool(b)
  }

  /** The strings of a listing are the listed names. */
  lemma ListedNames(listed: seq<string>, items: seq<Json>)
    requires |items| == |listed|
    requires forall i :: 0 <= i < |items| ==> items[i] == JStr(listed[i])
    ensures forall x :: JStr(x) in items <==> x in listed
  {
    forall x
      ensures JStr(x) in items <==> x in listed
    {
      if x in listed {
        var i :| 0 <= i < |listed| && listed[i] == x;
        assert items[i] == JStr(x);
      }
      if JStr(x) in items {
        var i :| 0 <= i < |items| && items[i] == JStr(x);
        assert listed[i] == x;
      }
    }
  }

  /** The claims serialized one by one. */
  ghost function ClaimsJson(claims: map<string, Claim>): (m: map<string, Json>)
    ensures m.Keys == claims.Keys
    ensures forall k :: k in claims ==> m[k] == ToJson(claims[k])
  {
    map k | k in claims :: ToJson(claims[k])
  }

  /** The registered claims the builder sets after the custom ones. */
  function WithRegistered(claims: map<string, Json>, subject: string, issuedAt: int, expiration: int): (body: map<string, Json>)
    ensures body.Keys == claims.Keys + {SUBJECT, ISSUED_AT, EXPIRATION}
    ensures body[SUBJECT] == JStr(subject)
    ensures body[ISSUED_AT] == JNum(issuedAt) && body[EXPIRATION] == JNum(expiration)
    ensures forall k :: k in claims && k !in {SUBJECT, ISSUED_AT, EXPIRATION} ==> body[k] == claims[k]
  {
    claims[SUBJECT := JStr(subject)][ISSUED_AT := JNum(issuedAt)][EXPIRATION := JNum(expiration)]
  }

  /** The signed body: the claims, then subject, issue time and expiration,
      the two dates given as the epoch milliseconds of their `Date`s. */
  ghost function TokenBody(id: Uuid, user: UserSecurity, now: Instant, issued: Long, expires: Long): (body: map<string, Json>)
    ensures body.Keys == ClaimKeys + {SUBJECT, ISSUED_AT, EXPIRATION}
    ensures body[SUBJECT] == JStr(Uuids.ToString(id))
    ensures body[ISSUED_AT] == JNum(EpochSeconds(issued))
    ensures body[EXPIRATION] == JNum(EpochSeconds(expires))
  {
    var claims := ClaimsJson(GetClaims(id, user, GetAuthorities(user), now));
    WithRegistered(claims, Uuids.ToString(id), EpochSeconds(issued), EpochSeconds(expires))
  }

  /** HS512 signing with compact serialization, and the parser that checks a
      signature and gives back the body. */
  datatype Signer = Signer(
    sign: (string, map<string, Json>) -> string,
    verify: (string, string) -> Option<map<string, Json>>)

  /** A token signed with a key verifies under that key to the body it was made from. */
  ghost predicate Sound(signer: Signer)
  {
    forall key, body :: signer.verify(key, signer.sign(key, body)) == Some(body)
  }

  /** The token lifetime in nanoseconds, for a supported unit. */
  function ValidityNanos(props: JwtSecurityProperties): int
    requires UnitNanos(props.unit).Some?
  {
    props.validity * UnitNanos(props.unit).value
  }

  /** The message `Date.from` fails with when the milliseconds overflow. */
  const DATE_OVERFLOW := "java.lang.ArithmeticException: " + LONG_OVERFLOW

  /** Millisecond counts that fit a `long` belong to instants in range. */
  lemma MillisInRange(x: int)
    ensures InLong(x / NANOS_PER_MILLI) ==> InRange(x)
  {
    DivBounds(x, NANOS_PER_MILLI);
  }

  /** `createToken`: the expiry is `now` plus the configured validity; both
      dates must become `Date`s. Issuing fails for an unsupported unit, for a
      validity whose seconds overflow `long`, and when either date lies
      beyond the milliseconds a `long` holds. With a sound signer the token
      verifies to a body carrying the subject and both dates. */
  ghost function CreateToken(props: JwtSecurityProperties, signer: Signer, id: Uuid, user: UserSecurity, now: Instant): (r: Try<Token>)
    ensures UnitNanos(props.unit).None? ==>
      r == Failure(UnsupportedTemporalType("Unsupported unit: " + UnitText(props.unit)))
    ensures UnitNanos(props.unit).Some? && !SecondsFit(props.validity, props.unit) ==>
      r == Failure(Arithmetic(LONG_OVERFLOW))
    ensures r.Success? <==>
      && UnitNanos(props.unit).Some? && SecondsFit(props.validity, props.unit)
      && InLong(now / NANOS_PER_MILLI) && InLong((now + ValidityNanos(props)) / NANOS_PER_MILLI)
    ensures (UnitNanos(props.unit).Some? && SecondsFit(props.validity, props.unit)
             && InRange(now + ValidityNanos(props)) && r.Failure?) ==>
      r == Failure(IllegalArgument(DATE_OVERFLOW))
    ensures r.Success? ==> r.value.expiryTime == now + ValidityNanos(props)
    ensures r.Success? && Sound(signer) ==>
      var verified := signer.verify(props.signingKey, r.value.token);
      && verified.Some?
      && SUBJECT in verified.value && ISSUED_AT in verified.value && EXPIRATION in verified.value
      && verified.value[SUBJECT] == JStr(Uuids.ToString(id))
      && verified.value[ISSUED_AT] == JNum(EpochSeconds(now / NANOS_PER_MILLI))
      && verified.value[EXPIRATION] == JNum(EpochSeconds(r.value.expiryTime / NANOS_PER_MILLI))
  {
    MillisInRange(now + if UnitNanos(props.unit).Some? then ValidityNanos(props) else 0);
    var expiry :- Plus(now, props.validity, props.unit);
    var issued :- DateFrom(now);
    var expires :- DateFrom(expiry);
    Success(Token(signer.sign(props.signingKey, TokenBody(id, user, now, issued, expires)), expiry))
  }

  /** A day count whose expiry is still an `Instant` but lies beyond the
      milliseconds of a `Date`: issuing fails in `Date.from`. */
  lemma TooLongValidityFails(key: string, signer: Signer, id: Uuid, user: UserSecurity)
    ensures CreateToken(JwtSecurityProperties(key, 200_000_000_000, DAYS), signer, id, user, 0)
            == Failure(IllegalArgument(DATE_OVERFLOW))
  {
    var props := JwtSecurityProperties(key, 200_000_000_000, DAYS);
    assert ValidityNanos(props) == 17_280_000_000_000_000_000_000_000;
    assert InRange(ValidityNanos(props));
    assert SecondsFit(200_000_000_000, DAYS);
    assert ValidityNanos(props) / NANOS_PER_MILLI == 17_280_000_000_000_000_000;
  }

  /** The dates of the body in terms of the instant: floor milliseconds, then
      seconds toward zero, which is the epoch second for instants from 1970 on
      and within a second above it before. */
  lemma DateSeconds(t: Instant)
    requires InLong(t / NANOS_PER_MILLI)
    ensures t >= 0 ==> EpochSeconds(t / NANOS_PER_MILLI) == t / NANOS_PER_SECOND
    ensures t < 0 ==> var s := EpochSeconds(t / NANOS_PER_MILLI);
      s * NANOS_PER_SECOND - NANOS_PER_SECOND < t < s * NANOS_PER_SECOND + NANOS_PER_MILLI
  {
    var m := t / NANOS_PER_MILLI;
    var s := EpochSeconds(m);
    DivBounds(t, NANOS_PER_MILLI);
    if t >= 0 {
      DivAtLeast(t, NANOS_PER_MILLI, 0);
      DivBounds(t, NANOS_PER_SECOND);
      QuotientUnique(t, NANOS_PER_SECOND, s, t / NANOS_PER_SECOND);
    } else {
      DivBelow(t, NANOS_PER_MILLI, 0);
    }
  }

  /** `Claims.getSubject()`: the subject's string form; a missing subject is
      the null that `UUID.fromString` rejects. */
  function Subject(body: map<string, Json>): (r: Try<string>)
    ensures r.Success? <==> SUBJECT in body
    ensures SUBJECT in body && body[SUBJECT].JStr? ==> r == Success(body[SUBJECT].s)
    ensures r.Failure? ==> r.error == NullPointer(SUBJECT)
  {
    if SUBJECT in body then Success(JavaToString(body[SUBJECT])) else Failure(NullPointer(SUBJECT))
  }

  /** `body.get(key, String::class.java)` assigned to a non-null `String`. */
  function GetString(body: map<string, Json>, key: string): (r: Try<string>)
    ensures r.Success? <==> key in body && body[key].JStr?
    ensures r.Success? ==> r.value == body[key].s
  {
    if key !in body then Failure(NullPointer(key))
    else if body[key].JStr? then Success(body[key].s)
    else Failure(RequiredType(key))
  }

  /** `body.get(key, Object::class.java).toString().toBoolean()`: a missing
      claim is a null whose `toString()` is "null", which reads as false. */
  function GetFlag(body: map<string, Json>, key: string): (r: bool)
    ensures r <==> key in body && (body[key] == JBool(true) || (body[key].JStr? && EqualsIgnoreCase(body[key].s, "true")))
  {
    assert !EqualsIgnoreCase(NULL_TEXT, "true") by { assert LowerAscii(NULL_TEXT[0]) != LowerAscii("true"[0]); }
    ToBoolean(if key in body then JavaToString(body[key]) else NULL_TEXT)
  }

  /** The `roles` list cast element by element to `String` and collected into a set. */
  function StringsOf(items: seq<Json>): (r: Try<set<string>>)
    ensures r.Success? <==> forall i :: 0 <= i < |items| ==> items[i].JStr?
    ensures r.Success? ==> forall x :: x in r.value <==> JStr(x) in items
  {
    if |items| == 0 then Success({})
    else if !items[0].JStr? then Failure(ClassCast(ROLES))
    else
      match StringsOf(items[1..])
      case Success(rest) => Success({items[0].s} + rest)
      case Failure(e) => Failure(e)
  }

  /** `body.get(ROLES, MutableList::class.java)` turned into a set of authority names. */
  function GetRoles(body: map<string, Json>): (r: Try<set<string>>)
    ensures r.Success? <==> ROLES in body && body[ROLES].JArr? && forall i :: 0 <= i < |body[ROLES].items| ==> body[ROLES].items[i].JStr?
    ensures r.Success? ==> forall x :: x in r.value <==> JStr(x) in body[ROLES].items
  {
    if ROLES !in body then Failure(NullPointer(ROLES))
    else if !body[ROLES].JArr? then Failure(RequiredType(ROLES))
    else StringsOf(body[ROLES].items)
  }

  /** A body the claims decoder accepts: a subject that parses as a UUID,
      string `username` and `sexe` claims with a known sexe, and a `roles`
      list of strings. The flags are optional. */
  ghost predicate Decodable(body: map<string, Json>)
  {
    && SUBJECT in body && Uuids.FromString(JavaToString(body[SUBJECT])).Success?
    && USERNAME in body && body[USERNAME].JStr?
    && SEXE in body && body[SEXE].JStr? && SexeValueOf(body[SEXE].s).Success?
    && ROLES in body && body[ROLES].JArr?
    && forall i :: 0 <= i < |body[ROLES].items| ==> body[ROLES].items[i].JStr?
  }

  /** The claims part of `createUserSecurityFromToken`, reading the fields in
      the source's order. The id comes from the subject (the `id` claim is
      ignored), the password is always empty, and roles collapse to a set. */
  function DecodeClaims(body: map<string, Json>): (r: Try<UserSecurity>)
    ensures r.Success? <==> Decodable(body)
    ensures r.Success? ==> Uuids.FromString(JavaToString(body[SUBJECT])) == Success(r.value.id)
    ensures r.Success? ==> GetPassword(r.value) == ""
    ensures r.Success? ==> body[USERNAME] == JStr(GetUsername(r.value))
    ensures r.Success? ==> body[SEXE] == JStr(SexeName(r.value.sexe))
    ensures r.Success? ==> (r.value.enabled <==> ENABLE in body && CoerceBoolean(body[ENABLE]))
    ensures r.Success? ==> (r.value.accountNonExpired <==> ACCOUNT_NON_EXPIRED in body && CoerceBoolean(body[ACCOUNT_NON_EXPIRED]))
    ensures r.Success? ==> (r.value.accountNonLocked <==> ACCOUNT_NON_LOCKED in body && CoerceBoolean(body[ACCOUNT_NON_LOCKED]))
    ensures r.Success? ==> (r.value.credentialsNonExpired <==> CREDENTIALS_NON_EXPIRED in body && CoerceBoolean(body[CREDENTIALS_NON_EXPIRED]))
    ensures r.Success? ==> forall a :: a in GetAuthorities(r.value) <==> JStr(a) in body[ROLES].items
  {
    var subject :- Subject(body);
    var id :- Uuids.FromString(subject);
    var username :- GetString(body, USERNAME);
    var sexeName :- GetString(body, SEXE);
    var sexe :- SexeValueOf(sexeName);
    var accountNonExpired := GetFlag(body, ACCOUNT_NON_EXPIRED);
    var accountNonLocked := GetFlag(body, ACCOUNT_NON_LOCKED);
    var credentialsNonExpired := GetFlag(body, CREDENTIALS_NON_EXPIRED);
    var enable := GetFlag(body, ENABLE);
    var authorities :- GetRoles(body);
    Success(UserSecurity(id, sexe, username, "", authorities, accountNonExpired, accountNonLocked, credentialsNonExpired, enable))
  }

  /** `createUserSecurityFromToken`: a token whose signature does not verify
      is rejected before any claim is read. */
  function CreateUserSecurityFromToken(props: JwtSecurityProperties, signer: Signer, token: string): (r: Try<UserSecurity>)
    ensures signer.verify(props.signingKey, token).None? ==> r == Failure(InvalidJwt)
    ensures r.Success? ==> GetPassword(r.value) == ""
  {
    match signer.verify(props.signingKey, token)
    case None => Failure(InvalidJwt)
    case Some(body) => DecodeClaims(body)
  }

  /** What a token issued for `user` under `id` decodes to: the principal
      with the id replaced, the password emptied and `enabled` kept. */
  function Decoded(id: Uuid, user: UserSecurity): UserSecurity
  {
    UserSecurity(id, user.sexe, GetUsername(user), "", GetAuthorities(user),
                 user.accountNonExpired, user.accountNonLocked, user.credentialsNonExpired, IsEnabled(user))
  }

  lemma StringsOfStrings(items: seq<Json>, names: set<string>)
    requires forall i :: 0 <= i < |items| ==> items[i].JStr?
    requires forall x :: JStr(x) in items <==> x in names
    ensures StringsOf(items) == Success(names)
  {
    var r := StringsOf(items);
    assert r.Success?;
    forall x
      ensures x in r.value <==> x in names
    {
      assert x in r.value <==> JStr(x) in items;
    }
    assert r.value == names;
  }

  /** The value each claim has in the signed body. */
  lemma TokenBodyFields(id: Uuid, user: UserSecurity, now: Instant, issued: Long, expires: Long)
    ensures var body := TokenBody(id, user, now, issued, expires);
      && body[USERNAME] == JStr(GetUsername(user))
      && body[SEXE] == JStr(SexeName(user.sexe))
      && body[ACCOUNT_NON_EXPIRED] == JBool(user.accountNonExpired)
      && body[ACCOUNT_NON_LOCKED] == JBool(user.accountNonLocked)
      && body[CREDENTIALS_NON_EXPIRED] == JBool(user.credentialsNonExpired)
      && body[ENABLE] == JBool(IsEnabled(user))
      && body[ROLES] == ToJson(CRoles(GetAuthorities(user)))
  {
  }

  /** Claims round trip: decoding the body of a token issued for `user`
      gives back id, username, sexe, authority set and the four flags. */
  lemma DecodeTokenBody(id: Uuid, user: UserSecurity, now: Instant, issued: Long, expires: Long)
    ensures DecodeClaims(TokenBody(id, user, now, issued, expires)) == Success(Decoded(id, user))
  {
    var body := TokenBody(id, user, now, issued, expires);
    TokenBodyFields(id, user, now, issued, expires);
    Uuids.RoundTrip(id);
    SexeValueOfName(user.sexe);
    var roles := ToJson(CRoles(GetAuthorities(user)));
    StringsOfStrings(roles.items, GetAuthorities(user));
    assert Subject(body) == Success(Uuids.ToString(id));
    assert GetString(body, USERNAME) == Success(GetUsername(user));
    assert GetString(body, SEXE) == Success(SexeName(user.sexe));
    assert GetFlag(body, ACCOUNT_NON_EXPIRED) == user.accountNonExpired;
    assert GetFlag(body, ACCOUNT_NON_LOCKED) == user.accountNonLocked;
    assert GetFlag(body, CREDENTIALS_NON_EXPIRED) == user.credentialsNonExpired;
    assert GetFlag(body, ENABLE) == IsEnabled(user);
    assert GetRoles(body) == Success(GetAuthorities(user));
  }

  /** End to end: a token issued by `createToken` is accepted by
      `createUserSecurityFromToken` and yields the issued principal. */
  lemma TokenRoundTrip(props: JwtSecurityProperties, signer: Signer, id: Uuid, user: UserSecurity, now: Instant)
    requires Sound(signer)
    requires CreateToken(props, signer, id, user, now).Success?
    ensures CreateUserSecurityFromToken(props, signer, CreateToken(props, signer, id, user, now).value.token)
            == Success(Decoded(id, user))
  {
    var expiry := Plus(now, props.validity, props.unit).value;
    var issued := DateFrom(now).value;
    var expires := DateFrom(expiry).value;
    var body := TokenBody(id, user, now, issued, expires);
    assert signer.verify(props.signingKey, signer.sign(props.signingKey, body)) == Some(body);
    DecodeTokenBody(id, user, now, issued, expires);
  }
}
