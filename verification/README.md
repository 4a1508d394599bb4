# easy-utils security core in Dafny

A model of the security core of the easy-utils library and of the profile
service built on it. It covers:

- the JWT token service. It issues a signed token carrying a user's claims
  and rebuilds the user (a `UserSecurity`) from such a token.
- the `Authorization: Bearer <token>` header extractor.
- the reactive security-context repository and authentication manager that
  turn a request header into an authenticated `UserTokenAuthentication`.
- the audit callback. It stamps creation and modification data on every
  saved document.
- the profile service's route table, its SpEL scopes (`admin`, `me`,
  `adminOrMe`), the user entity and its mappers, `getAll`, and the login flow
  `createToken`.
- the helper functions of `Tools.kt` (date window, zodiac sign, lookups that
  throw, optional path matchers, `putIfIsAbsent`, `isEmptyWithDash`,
  `maxByValue`/`maxByKey`, `paginationResult`).
- `PaginationResult.createSubList`, with Java `long` arithmetic.
- the password validator and the message template it builds.

Everything is pure. The clock, random UUIDs, the HMAC signer, the bcrypt
matcher, the Ant path matcher, the Passay message resolver and the
connection and token factories are parameters. The signer is a pair of
functions with a soundness predicate: verifying a signed body gives it back.
Repositories are maps. A reactive empty result is `None`. An exception is a
`Failure` whose error is an `Errors.Exception`. Its HTTP status follows each
custom exception's `httpCode`.

Modules follow the source files. Shared modules are `Wrappers` (Option and
Result), `Text` (ASCII case folding, decimal text, joins), `Errors` (error
codes and exceptions), `Uuids` (the canonical UUID text codec), `Enums`,
`Json` (claim values and Java `toString`), `JavaLong` (64-bit `long`
arithmetic: wrap-around, `Math.addExact`/`multiplyExact`, division toward
zero), `Instants` (`java.time.Instant` with its range, `plus`, `truncatedTo`
and the `toEpochMilli` behind `Date.from`) and `Routes` (the authorize-exchange
rule table).

Two behaviours of the code shape the model:

- A header holding `Bearer` with no token is rejected with an
  `IllegalArgumentException`. The regular expression requires its group to
  match, so such a header is an error and not a missing credential.
- The `UserSecurity` the JWT service builds is the `easysecurity.model` class
  the service imports, which has a `sexe: Sexe` field. The class in
  `easyutils/model/UserSecurity.kt` has a `sex` field instead. All the other
  fields and defaults are the same.

## Model

| member | source | states |
|---|---|---|
| Errors.HttpCode | src/main/kotlin/mj/carthy/easyutils/exception/AccessDeniedException.kt:6-13 | Only custom exceptions carry an HTTP status, always a 4xx: 401 exactly for access denied, 404 for entity or property not found, 422 for the two unprocessable kinds |
| Uuids.ToString | src/main/kotlin/mj/carthy/easysecurity/service/JwtAuthenticateTokenService.kt:56 | A UUID's subject text is 36 characters with dashes at positions 8, 13, 18 and 23 |
| Uuids.FromString | src/main/kotlin/mj/carthy/easysecurity/service/JwtAuthenticateTokenService.kt:37 | Parsing a subject succeeds only on the dashed 36-character layout and otherwise fails with the invalid-UUID error |
| Uuids.RoundTrip | src/main/kotlin/mj/carthy/easysecurity/service/JwtAuthenticateTokenService.kt:37 | Parsing the text of a UUID gives back that UUID |
| Uuids.ToStringInjective | src/main/kotlin/mj/carthy/easysecurity/service/JwtAuthenticateTokenService.kt:56 | Two UUIDs with the same text are equal, so the subject identifies the user |
| Enums.SexeValueOf | src/main/kotlin/mj/carthy/easysecurity/service/JwtAuthenticateTokenService.kt:39 | `valueOf` accepts exactly the two constant names, returns the constant with that name, and otherwise throws the "No enum constant" IllegalArgument |
| Enums.SexeValueOfName | src/main/kotlin/mj/carthy/easysecurity/service/JwtAuthenticateTokenService.kt:39 | Looking up a constant's own name gives that constant back |
| Json.JavaToString | src/main/kotlin/mj/carthy/easysecurity/service/JwtAuthenticateTokenService.kt:40-43 | Java `toString` of a list starts with '[' and of a number starts with a digit or '-' |
| Json.CoerceBoolean | src/main/kotlin/mj/carthy/easysecurity/service/JwtAuthenticateTokenService.kt:40-43 | A claim reads as true exactly when it is the boolean true or a string equal to "true" ignoring ASCII case |
| Principals.NewUserSecurity | src/main/kotlin/mj/carthy/easyutils/model/UserSecurity.kt:8-26 | A principal built without the optional arguments has no authorities and every flag false, so it is not enabled |
| Principals.IsEnabledIgnoresOtherFlags | src/main/kotlin/mj/carthy/easyutils/model/UserSecurity.kt:24 | `isEnabled` reads only the stored `enabled` flag and not the three account flags |
| JavaLong.AddExact | src/main/kotlin/mj/carthy/easysecurity/service/JwtAuthenticateTokenService.kt:52 | The sum is returned exactly when it fits a `long`; otherwise the "long overflow" ArithmeticException |
| JavaLong.MultiplyExact | src/main/kotlin/mj/carthy/easysecurity/service/JwtAuthenticateTokenService.kt:52 | The product is returned exactly when it fits a `long`; otherwise the "long overflow" ArithmeticException |
| JavaLong.JavaDiv | src/main/kotlin/mj/carthy/easysecurity/service/JwtAuthenticateTokenService.kt:57-58 | Java's division rounds toward zero: a non-negative dividend lies in the step above the quotient's multiple, a negative one in the step below, which is one more than the floor when inexact; the quotient is never farther from zero than the dividend |
| JavaLong.JavaRem | src/main/kotlin/mj/carthy/easysecurity/service/JwtAuthenticateTokenService.kt:52 | Java's remainder completes the truncating division and has the sign of the dividend, with magnitude below the divisor |
| Instants.Plus | src/main/kotlin/mj/carthy/easysecurity/service/JwtAuthenticateTokenService.kt:52 | Moving `now` by the validity succeeds exactly for a unit of at most a day whose seconds fit a `long` and whose result lies between `Instant.MIN` and `Instant.MAX`, and then adds exactly amount times the unit; otherwise it throws the JDK's exception: "Unsupported unit", "long overflow", or the out-of-range DateTimeException |
| Instants.PlusParts | src/main/kotlin/mj/carthy/easysecurity/service/JwtAuthenticateTokenService.kt:52 | Adding seconds and nanoseconds is exact when it succeeds, fails exactly when the result leaves the instant range whenever one part is below a second, and fails only by overflow or range |
| Instants.TruncatedToMinutes | src/main/kotlin/mj/carthy/easysecurity/service/JwtAuthenticateTokenService.kt:74 | The creation time is the whole minute at or just before the instant, and is always a valid instant |
| Instants.ToEpochMilli | src/main/kotlin/mj/carthy/easysecurity/service/JwtAuthenticateTokenService.kt:57-58 | An instant's millisecond count is its floor milliseconds, returned exactly when that fits a `long`, otherwise the "long overflow" ArithmeticException |
| Instants.DateFrom | src/main/kotlin/mj/carthy/easysecurity/service/JwtAuthenticateTokenService.kt:57-58 | `Date.from` succeeds exactly when the floor milliseconds fit a `long`, giving them; otherwise IllegalArgumentException caused by the overflow |
| JwtService.EpochSeconds | src/main/kotlin/mj/carthy/easysecurity/service/JwtAuthenticateTokenService.kt:57-58 | A date claim is the `Date`'s milliseconds divided by 1000 toward zero: the whole seconds at or below a non-negative count, at or above a negative one |
| JwtService.DateSeconds | src/main/kotlin/mj/carthy/easysecurity/service/JwtAuthenticateTokenService.kt:57-58 | For an instant from 1970 on the date claim is its epoch second; before 1970 it lies within a second above the instant |
| JwtService.GetClaims | src/main/kotlin/mj/carthy/easysecurity/service/JwtAuthenticateTokenService.kt:64-76 | The claim map has exactly the nine keys, holding the id, the given roles, the username, the sexe, the three account flags, `isEnabled` and the minute-truncated creation time |
| JwtService.ToJson | src/main/kotlin/mj/carthy/easysecurity/service/JwtAuthenticateTokenService.kt:64-75 | Every claim value becomes JSON the decoder reads back: the UUID and sexe texts parse to the originals, a flag coerces to itself, and the role set is listed with each name once |
| JwtService.WithRegistered | src/main/kotlin/mj/carthy/easysecurity/service/JwtAuthenticateTokenService.kt:56-58 | Subject, issued-at and expiration are added and every other claim is kept |
| JwtService.TokenBody | src/main/kotlin/mj/carthy/easysecurity/service/JwtAuthenticateTokenService.kt:54-59 | The signed body holds the claim keys plus subject, issued-at and expiration: the subject is the UUID text and both dates are the epoch seconds of their `Date`s |
| JwtService.CreateToken | src/main/kotlin/mj/carthy/easysecurity/service/JwtAuthenticateTokenService.kt:50-62 | Issuing fails for an unsupported unit, for a validity whose seconds overflow a `long`, and with IllegalArgumentException when either date lies beyond the milliseconds a `long` holds; otherwise it succeeds, the expiry is now plus the validity, and with a sound signer the token verifies to a body carrying the subject and both dates |
| JwtService.TooLongValidityFails | src/main/kotlin/mj/carthy/easysecurity/service/JwtAuthenticateTokenService.kt:52-58 | A validity of 200 000 000 000 days is a valid instant offset but overflows `Date.from`, so issuing throws IllegalArgumentException |
| JwtService.MillisInRange | src/main/kotlin/mj/carthy/easysecurity/service/JwtAuthenticateTokenService.kt:57-58 | Every instant whose milliseconds fit a `long` is within the instant range, so `Date.from` is the binding limit |
| JwtService.Subject | src/main/kotlin/mj/carthy/easysecurity/service/JwtAuthenticateTokenService.kt:37 | The subject is read exactly when present, a string subject is its own text, and a missing one is a null-pointer error |
| JwtService.GetString | src/main/kotlin/mj/carthy/easysecurity/service/JwtAuthenticateTokenService.kt:38 | A string claim is read exactly when present and a string, and is that string |
| JwtService.GetFlag | src/main/kotlin/mj/carthy/easysecurity/service/JwtAuthenticateTokenService.kt:40-43 | A flag is true exactly when the claim is present and is the boolean true or a string equal to "true" ignoring case; a missing claim reads as false, since the text of null is "null" |
| JwtService.StringsOf | src/main/kotlin/mj/carthy/easysecurity/service/JwtAuthenticateTokenService.kt:44-46 | The roles list converts exactly when every element is a string, to the set of those strings |
| JwtService.GetRoles | src/main/kotlin/mj/carthy/easysecurity/service/JwtAuthenticateTokenService.kt:44-46 | The roles are read exactly when the claim is a list of strings, and are the strings in it |
| JwtService.DecodeClaims | src/main/kotlin/mj/carthy/easysecurity/service/JwtAuthenticateTokenService.kt:36-47 | Decoding succeeds exactly for a body with a UUID subject, string username, a known sexe name and a roles list of strings; each field comes from its claim, missing flags read as false, and the password is empty |
| JwtService.CreateUserSecurityFromToken | src/main/kotlin/mj/carthy/easysecurity/service/JwtAuthenticateTokenService.kt:34-48 | A token that does not verify is rejected as an invalid JWT; any decoded user has an empty password |
| JwtService.StringsOfStrings | src/main/kotlin/mj/carthy/easysecurity/service/JwtAuthenticateTokenService.kt:44-46 | A list of strings with a given membership converts to exactly that set |
| JwtService.TokenBodyFields | src/main/kotlin/mj/carthy/easysecurity/service/JwtAuthenticateTokenService.kt:64-76 | Each field of the issued body is the JSON form of the corresponding user field |
| JwtService.DecodeTokenBody | src/main/kotlin/mj/carthy/easysecurity/service/JwtAuthenticateTokenService.kt:34-48 | Decoding an issued body gives the user back: same id, username, sexe, authorities and flags, and an empty password |
| JwtService.TokenRoundTrip | src/main/kotlin/mj/carthy/easysecurity/service/JwtAuthenticateTokenService.kt:34-62 | With a sound signer, reading an issued token gives back the issuing user except for the password |
| Extractor.GetFirst | src/main/kotlin/mj/carthy/easysecurity/tools/Extractor.kt:21 | The header lookup is absent exactly when no header name equals the wanted one ignoring case; otherwise it is the value of the first header with that name |
| Extractor.DropSpaces | src/main/kotlin/mj/carthy/easysecurity/tools/Extractor.kt:13 | Skipping the ` *` part leaves the input minus a run of leading spaces and no leading space |
| Extractor.Match | src/main/kotlin/mj/carthy/easysecurity/tools/Extractor.kt:13-15 | The pattern matches exactly when the input starts with "Bearer" in any case and the rest after spaces holds no space; the group is unset exactly when that rest is empty |
| Extractor.Parse | src/main/kotlin/mj/carthy/easysecurity/tools/Extractor.kt:23-30 | A missing header gives no token; a failure is the "The token is incorrect" IllegalArgument; a token is non-empty, space-free and is the input after the keyword and spaces; a wrong prefix fails |
| Extractor.Extract | src/main/kotlin/mj/carthy/easysecurity/tools/Extractor.kt:21 | No Authorization header gives no token, and a failure names the header value |
| Extractor.DropSpacesOfSpaces | src/main/kotlin/mj/carthy/easysecurity/tools/Extractor.kt:13 | Skipping spaces in front of a word without a leading space gives the word |
| Extractor.ParseBearer | src/main/kotlin/mj/carthy/easysecurity/tools/Extractor.kt:23-30 | The keyword in any case, any number of spaces and a space-free token gives exactly that token |
| Extractor.ParseBearerWithoutToken | src/main/kotlin/mj/carthy/easysecurity/tools/Extractor.kt:27-29 | The keyword with only spaces after it throws rather than giving no credential |
| Extractor.ParseInnerSpace | src/main/kotlin/mj/carthy/easysecurity/tools/Extractor.kt:13 | A token with a space inside is rejected |
| Extractor.ParseExamples | src/main/kotlin/mj/carthy/easysecurity/tools/Extractor.kt:13-15 | "bEaReR x" gives "x", "Bearerabc" gives "abc" with no space needed, and "Bearer" alone fails |
| Extractor.ParseOtherScheme | src/main/kotlin/mj/carthy/easysecurity/tools/Extractor.kt:17 | "Basic xyz" fails with the message "The token is incorrect : Basic xyz" |
| Authentications.Principal | src/main/kotlin/mj/carthy/easysecurity/authentication/UserTokenAuthentication.kt:11 | A token authentication's principal is its UserSecurity; a pre-authentication's is the one it was built with |
| Authentications.Credentials | src/main/kotlin/mj/carthy/easysecurity/authentication/UserTokenAuthentication.kt:10 | A token authentication's credentials are its token text |
| Authentications.AuthenticatedOnlyByEnabledRoles | src/main/kotlin/mj/carthy/easysecurity/authentication/UserTokenAuthentication.kt:12 | An authentication is authenticated exactly when it is a token authentication whose user is enabled and has an authority; the three account flags play no part |
| AuthenticationManager.CredentialText | src/main/kotlin/mj/carthy/easysecurity/manager/AuthenticationManager.kt:14 | A present credential's text is the credential, a missing one's is "null" |
| AuthenticationManager.Authenticate | src/main/kotlin/mj/carthy/easysecurity/manager/AuthenticationManager.kt:11-17 | The credential's text is decoded: it succeeds exactly when decoding does, with the decoded user as principal and that text as credentials, and a decoding error is the manager's error |
| AuthenticationManager.AuthenticateIssuedToken | src/main/kotlin/mj/carthy/easysecurity/manager/AuthenticationManager.kt:11-17 | An issued token authenticates as its user, and is authenticated exactly when the user is enabled and has an authority |
| SecurityContextRepository.Load | src/main/kotlin/mj/carthy/easysecurity/repositories/SecurityContextRepository.kt:19-26 | No Authorization header, or none extracted, gives no context; an extraction error passes through; otherwise a token that does not decode is the failure of loading, and one that does gives a context holding exactly the token authentication of the decoded user with that token |
| SecurityContextRepository.Save | src/main/kotlin/mj/carthy/easysecurity/repositories/SecurityContextRepository.kt:15-17 | Saving a context always throws the not-implemented error |
| SecurityContextRepository.LoadIssuedToken | src/main/kotlin/mj/carthy/easysecurity/repositories/SecurityContextRepository.kt:19-26 | A request bearing an issued token loads a context authenticating the issuing user with that token |
| SecurityContextRepository.LoadKeywordOnly | src/main/kotlin/mj/carthy/easysecurity/repositories/SecurityContextRepository.kt:21-23 | A header holding only the keyword makes loading fail instead of giving an anonymous request |
| Users.NewUser | src/main/kotlin/mj/carthy/profileservice/entities/user/User.kt:17-27 | A new user has an empty base document, no authorities, connections or codes, and every account flag false |
| Users.IsEnabledCharacterization | src/main/kotlin/mj/carthy/profileservice/entities/user/User.kt:33 | A user is enabled exactly when the account is neither locked nor expired; expired credentials do not matter, and a new user is not enabled |
| UserMapper.AuthorityNames | src/main/kotlin/mj/carthy/profileservice/mapper/UserMapper.kt:25 | Each authority contributes its role name and nothing else is added |
| UserMapper.ToUserSecurity | src/main/kotlin/mj/carthy/profileservice/mapper/UserMapper.kt:20-30 | Mapping fails with a null-pointer error exactly when the id is unset; otherwise it copies id, sexe, username and flags, blanks the password, and sets enabled from `isEnabled` |
| UserMapper.ToUserOutputDto | src/main/kotlin/mj/carthy/profileservice/mapper/UserMapper.kt:8-18 | Mapping fails exactly when the id is unset; otherwise it copies the fields, authorities and connections and sets enabled from `isEnabled` |
| UserMapper.AuthorityNamesFaithful | src/main/kotlin/mj/carthy/profileservice/mapper/UserMapper.kt:25 | A role's name is among the mapped names exactly when the user holds that role |
| UserMapper.ProjectionsAgree | src/main/kotlin/mj/carthy/profileservice/mapper/UserMapper.kt:8-30 | The two projections fail together and agree on id, username, sexe, flags and enabled |
| Scope.EvaluateAdminOrMe | src/main/kotlin/mj/carthy/profileservice/securities/scope/Scope.kt:14-16 | The SpEL expression grants exactly admin or owner, always calls `admin` first, and calls `me` only when `admin` is false |
| Scope.ExpressionIsAdminOrMe | src/main/kotlin/mj/carthy/profileservice/securities/scope/Scope.kt:16-26 | The SpEL expression and `adminOrMe` with the id getter give the same decision |
| Scope.AdminOrMeCases | src/main/kotlin/mj/carthy/profileservice/securities/scope/Scope.kt:22-30 | An admin is always granted; anyone else is granted exactly when the document's id is theirs |
| Scope.AdminOrMeMonotone | src/main/kotlin/mj/carthy/profileservice/securities/scope/Scope.kt:22-30 | Adding authorities never revokes access |
| Scope.ScopesOfProjection | src/main/kotlin/mj/carthy/profileservice/securities/scope/Scope.kt:18-30 | The projection of a stored user is admin exactly when the user holds the ADMIN authority, and is always `me` for that user |
| UserService.GetAll | src/main/kotlin/mj/carthy/profileservice/services/UserService.kt:19-21 | The result is exactly the stored users whose id is the principal's |
| UserService.GetAllOfRepository | src/main/kotlin/mj/carthy/profileservice/services/UserService.kt:19-21 | In a repository keyed by id the result is the principal's own user, or empty when there is none |
| UserService.GetAllIgnoresAuthorities | src/main/kotlin/mj/carthy/profileservice/services/UserService.kt:19-21 | Even an admin sees only their own user |
| Audit.SetCreated | src/main/kotlin/mj/carthy/easysecurity/audit/AuditDocumentCallback.kt:30-41 | A document with an id is returned unchanged; one without gets a fresh id, the creator and the creation date, and nothing else changes |
| Audit.SetLastModifiedDate | src/main/kotlin/mj/carthy/easysecurity/audit/AuditDocumentCallback.kt:43-51 | The modifier and date are set and the id, creation data and version are kept |
| Audit.GetCurrentAuditor | src/main/kotlin/mj/carthy/easysecurity/audit/AuditDocumentCallback.kt:57-65 | A token authentication gives its user's username; any other authentication gives "system" |
| Audit.Auditor | src/main/kotlin/mj/carthy/easysecurity/audit/AuditDocumentCallback.kt:53-55 | With no security context the auditor is "system" |
| Audit.OnBeforeConvert | src/main/kotlin/mj/carthy/easysecurity/audit/AuditDocumentCallback.kt:21-28 | A saved document always has an id and the current modifier and date; a new one was created by the same user at the same instant; an existing one keeps its creation data |
| Audit.SetCreatedOnce | src/main/kotlin/mj/carthy/easysecurity/audit/AuditDocumentCallback.kt:35-39 | Stamping creation twice changes nothing the second time |
| Audit.RepeatedSaves | src/main/kotlin/mj/carthy/easysecurity/audit/AuditDocumentCallback.kt:21-51 | Saving again keeps id and creation data and updates only the modifier and date |
| Audit.AuditorOfIssuedToken | src/main/kotlin/mj/carthy/easysecurity/audit/AuditDocumentCallback.kt:53-65 | A request bearing an issued token is audited under the issuing user's username |
| TokenService.InvalidAuth | src/main/kotlin/mj/carthy/profileservice/securities/services/TokenService.kt:56-59 | Bad credentials are an access-denied error with code AUTHENTICATION_DENIED and status 401 |
| TokenService.VerifyUserIsEnable | src/main/kotlin/mj/carthy/profileservice/securities/services/TokenService.kt:61-67 | The check passes exactly when no email verification is pending and the user is enabled; a pending verification is reported before a disabled account |
| TokenService.Save | src/main/kotlin/mj/carthy/profileservice/securities/services/TokenService.kt:47 | Saving runs the audit callback, so the saved user always has an id, and stores it under its username |
| TokenService.LoginFound | src/main/kotlin/mj/carthy/profileservice/securities/services/TokenService.kt:44-53 | The attempt is recorded and saved first; a wrong password is rejected, then an unverified or disabled user, and only then is a token issued for the saved user |
| TokenService.LoginAsWritten | src/main/kotlin/mj/carthy/profileservice/securities/services/TokenService.kt:42 | As written, an unknown username ends in the empty-result exception and the fallback is never reached |
| TokenService.Login | src/main/kotlin/mj/carthy/profileservice/securities/services/TokenService.kt:35-54 | An unknown username is rejected as bad credentials with nothing saved; a known one follows the found-user flow |
| TokenService.UnknownUserAsWritten | src/main/kotlin/mj/carthy/profileservice/securities/services/TokenService.kt:42 | An unknown username gives an error without HTTP status as written, but 401 with the repository untouched once corrected |
| TokenService.EveryAttemptIsRecorded | src/main/kotlin/mj/carthy/profileservice/securities/services/TokenService.kt:44-47 | Every attempt on a known user saves the user with the new connection carrying the password check's outcome and with an id; other users are untouched |
| TokenService.CheckOrder | src/main/kotlin/mj/carthy/profileservice/securities/services/TokenService.kt:49-51 | A wrong password is reported before a pending verification or a disabled account |
| TokenService.TokenOnlyOnSuccess | src/main/kotlin/mj/carthy/profileservice/securities/services/TokenService.kt:42-53 | A token is issued only for a known user whose password matches, with no pending verification and an enabled account, and it is made for the saved user's enabled projection, with an empty password and the user's role names |
| Routes.PathMatchers | src/main/kotlin/mj/carthy/profileservice/securities/configuration/SecurityConfiguration.kt:48 | Adding a pattern rule fails exactly for an empty pattern list, with "matchers cannot be empty"; otherwise it appends one rule and keeps the earlier ones |
| Routes.FirstMatchFrom | src/main/kotlin/mj/carthy/profileservice/securities/configuration/SecurityConfiguration.kt:41-49 | The result is the first matching rule at or after a position, or none when no later rule matches |
| Routes.Decide | src/main/kotlin/mj/carthy/profileservice/securities/configuration/SecurityConfiguration.kt:41-49 | There is no decision exactly when no rule matches; otherwise the decision is the access of a matching rule |
| Routes.DecideFirst | src/main/kotlin/mj/carthy/profileservice/securities/configuration/SecurityConfiguration.kt:41-49 | The first matching rule decides |
| SecurityConfiguration.Rules | src/main/kotlin/mj/carthy/profileservice/securities/configuration/SecurityConfiguration.kt:40-50 | The table is the seven public rules, then the documentation patterns, then authenticated for everything; an empty pattern list fails |
| SecurityConfiguration.Authorize | src/main/kotlin/mj/carthy/profileservice/securities/configuration/SecurityConfiguration.kt:34-50 | With patterns every request is decided by the table; without them the chain cannot be built |
| SecurityConfiguration.AuthorizeCharacterization | src/main/kotlin/mj/carthy/profileservice/securities/configuration/SecurityConfiguration.kt:41-49 | A request is public exactly when a public endpoint or a documentation pattern matches; everything else requires authentication |
| SecurityConfiguration.LoginAndRegistrationArePublic | src/main/kotlin/mj/carthy/profileservice/securities/configuration/SecurityConfiguration.kt:41-42 | Logging in and registering are public, including with a trailing slash |
| SecurityConfiguration.CodeEndpointIsMethodSpecific | src/main/kotlin/mj/carthy/profileservice/securities/configuration/SecurityConfiguration.kt:44-45 | The code endpoint is public for POST and PUT but needs authentication for GET |
| SecurityConfiguration.PublicReadsAndDocumentation | src/main/kotlin/mj/carthy/profileservice/securities/configuration/SecurityConfiguration.kt:46-48 | Reading items and the profile count is public, and so is any path a documentation pattern matches, for every method |
| Tools.IsBetweenCharacterization | src/main/kotlin/mj/carthy/easyutils/helper/Tools.kt:122-123 | A date is between two bounds exactly when it lies in the closed interval; with reversed bounds, only the bounds themselves qualify |
| Tools.ZodiacOf | src/main/kotlin/mj/carthy/easyutils/helper/Tools.kt:174-188 | The sign exists exactly for months 1 to 12; otherwise the unprocessed zodiac error is thrown |
| Tools.SignIndex | src/main/kotlin/mj/carthy/easyutils/helper/Tools.kt:174-186 | Every day of a month has a sign among the twelve |
| Tools.ZodiacMatchesTable | src/main/kotlin/mj/carthy/easyutils/helper/Tools.kt:174-186 | The sign of a date is the table sign selected by its month's cutoff day |
| Tools.ZodiacContinuous | src/main/kotlin/mj/carthy/easyutils/helper/Tools.kt:174-186 | The day after each month's cutoff has the sign of the next month's first day, and no two months open with the same sign |
| Tools.EntityNotFoundException | src/main/kotlin/mj/carthy/easyutils/helper/Tools.kt:108-110 | The lookup error is entity-not-found with code ENTITY_NOT_FOUND and status 404 |
| Tools.FindOrThrow | src/main/kotlin/mj/carthy/easyutils/helper/Tools.kt:90-96 | A found entity is returned; otherwise the entity-not-found error naming the type and id is thrown |
| Tools.SingleOrError | src/main/kotlin/mj/carthy/easyutils/helper/Tools.kt:98-106 | Succeeds exactly when the request finds something and returns it; otherwise fails with ENTITY_NOT_FOUND |
| Tools.LookupsAgree | src/main/kotlin/mj/carthy/easyutils/helper/Tools.kt:90-110 | The throwing lookup and the null-checking lookup give the same result and the same message |
| Tools.EmptyAblePathMatchers | src/main/kotlin/mj/carthy/easyutils/helper/Tools.kt:129 | No patterns leave the rule table unchanged; otherwise one pattern rule with the given access is appended |
| Tools.EmptyAbleNeverFails | src/main/kotlin/mj/carthy/easyutils/helper/Tools.kt:129 | Plain path matchers fail exactly on an empty list, and where they succeed the empty-able version gives the same table |
| Tools.PutIfIsAbsent | src/main/kotlin/mj/carthy/easyutils/helper/Tools.kt:136 | The key always maps to the new value afterwards, the value is returned, and every other key is kept |
| Tools.PutIfIsAbsentOverwrites | src/main/kotlin/mj/carthy/easyutils/helper/Tools.kt:136 | It agrees with a real put-if-absent exactly when the key is new or already holds the value |
| Tools.IsEmptyWithDashCases | src/main/kotlin/mj/carthy/easyutils/helper/Tools.kt:154 | A collection counts as empty exactly when it has at most one element and every element is the dash; appending a dash keeps that only for the empty collection |
| Tools.MaxByValue | src/main/kotlin/mj/carthy/easyutils/helper/Tools.kt:158 | Absent exactly for an empty map; otherwise the value of the first entry whose value is maximal |
| Tools.MaxByKey | src/main/kotlin/mj/carthy/easyutils/helper/Tools.kt:159 | Absent exactly for an empty map; otherwise the value of the first entry whose key is maximal |
| Tools.PaginationResultOf | src/main/kotlin/mj/carthy/easyutils/helper/Tools.kt:131 | The record keeps content, page and size, and reports the page size as the total element count |
| JavaLong.ToLong | src/main/kotlin/mj/carthy/easyutils/model/PaginationResult.kt:16 | Conversion to `long` lands in the 64-bit range, is congruent modulo 2^64 and leaves in-range numbers alone |
| Pagination.CreateSubList | src/main/kotlin/mj/carthy/easyutils/model/PaginationResult.kt:11-17 | A negative offset is refused first, then a negative page size, each naming the number; otherwise the page is the reference slice |
| Pagination.SliceBounds | src/main/kotlin/mj/carthy/easyutils/model/PaginationResult.kt:15-17 | A page holds at most the page size, in collection order, and is empty past the end |
| Pagination.ConsecutivePages | src/main/kotlin/mj/carthy/easyutils/model/PaginationResult.kt:15-17 | Two consecutive pages together are the double-size page starting at the first |
| Text.Utf16Length | src/main/kotlin/mj/carthy/easyutils/validator/PasswordConstraintValidator.kt:39 | A password's length is counted in UTF-16 units: between its character count and twice it, and equal to it exactly when no character lies beyond the Basic Multilingual Plane |
| Text.Utf16LengthAppend | src/main/kotlin/mj/carthy/easyutils/validator/PasswordConstraintValidator.kt:39 | The UTF-16 length of a concatenation is the sum of the parts' lengths |
| PasswordValidator.Failing | src/main/kotlin/mj/carthy/easyutils/validator/PasswordConstraintValidator.kt:54 | The failed rules are exactly the listed rules the password breaks, in the listed order, each once when the list has no repeats |
| PasswordValidator.FailingInRuleOrder | src/main/kotlin/mj/carthy/easyutils/validator/PasswordConstraintValidator.kt:37-54 | The seven rules fail in their listed order, each at most once, and exactly those the password breaks |
| PasswordValidator.SupplementaryCharacterCountsTwice | src/main/kotlin/mj/carthy/easyutils/validator/PasswordConstraintValidator.kt:39 | Six ASCII characters and an emoji are seven characters but eight UTF-16 units, so the length rule accepts the password |
| PasswordValidator.Messages | src/main/kotlin/mj/carthy/easyutils/validator/PasswordConstraintValidator.kt:58 | There is one message per failed rule, in rule order |
| PasswordValidator.IsValidAsWritten | src/main/kotlin/mj/carthy/easyutils/validator/PasswordConstraintValidator.kt:36-64 | As written, valid exactly when every rule passes; an invalid password gets the bracketed list text of its messages as the template |
| PasswordValidator.IsValid | src/main/kotlin/mj/carthy/easyutils/validator/PasswordConstraintValidator.kt:36-64 | Valid exactly when every rule passes, with no template then; otherwise the template is the messages joined by commas |
| PasswordValidator.EachRuleIsNecessary | src/main/kotlin/mj/carthy/easyutils/validator/PasswordConstraintValidator.kt:37-52 | Breaking any single rule makes the password invalid: length 8 to 30 UTF-16 units, one upper, lower, digit and special character, no whitespace, not in the dictionary |
| PasswordValidator.TemplateAsWritten | src/main/kotlin/mj/carthy/easyutils/validator/PasswordConstraintValidator.kt:59 | Both versions agree on validity, but one failure gives "[m]" instead of "m" and two give "[m1, m2]" instead of "m1,m2" |

## Left out

- The JWT cryptography and format. HS512 signing, base64url and the JWT compact form are an abstract signer with a soundness assumption.
- JwtService.CreateUserSecurityFromToken: the expiry is not enforced, because jjwt's expiry check depends on the clock at parse time. Signature verification is the only check modelled.
- JwtService.GetClaims: `TOKEN_CREATE_TIME` is the decimal nanosecond count of the truncated instant, not Java's ISO-8601 text. Date formatting is outside the model.
- JwtService.CreateToken: `Instant.now()` is read three times in the source and is one `now` parameter here. The times can differ by microseconds.
- Uuids.FromString: accepts only the canonical 8-4-4-4-12 form. Java's `UUID.fromString` also accepts shorter groups.
- Claim values are booleans, integers, strings and lists. JSON objects and floating-point numbers are not modelled.
- Reactive plumbing (Mono, Flux, coroutines, `awaitSingle`) is modelled by its outcome: a value, no value, or an exception.
- The clock and `UUID.randomUUID` are parameters, as are the bcrypt matcher, the Ant path matcher, the connection and token factories, and the Passay message texts and character classes.
- `User.isAccountNonExpired`, `isAccountNonLocked` and `isCredentialsNonExpired` (User.kt lines 30 to 32) call themselves. The model reads the stored flags instead.
- `UserService.getById` is not modelled. It delegates to `monoOrError`, which is not part of this model.
- `Tools.kt` helpers outside the security core are not modelled: error details, date formatting, Kafka and Gson conversion, buffers, random codes, criteria and BigDecimal operators.
- Tools.ZodiacOf: the error message renders the date as year-month-day with dashes and two-digit month and day, which is `LocalDate.toString` for years 1000 to 9999. Outside that range Java pads the year to four digits and puts a `+` before years above 9999; the model prints the plain number. Dates are not validated against month lengths.
- Tools.MaxByValue and Tools.MaxByKey: comparable values are integers, and a map is the sequence of its entries in iteration order.
- PasswordValidator.IsValid: Passay's message resolution and the dictionary file contents are parameters. Each failed rule contributes exactly one message.
- PasswordValidator.IsValid (and IsValidAsWritten, EachRuleIsNecessary): the character classes are parameters applied to whole characters. Passay tests UTF-16 units, so a character beyond the Basic Multilingual Plane reaches the class tests as two surrogate halves, which belong to none of the English classes. The length rule counts UTF-16 units as Passay does.
- Pagination.CreateSubList: `Number.toLong()` on a floating-point number is not modelled. Numbers are integers.
- `Errors.kt` error codes are names only; their numeric values are not modelled.

## Findings

| source | as written | input that shows it | evidently intended | confidence | as-written member | corrected member |
|---|---|---|---|---|---|---|
| src/main/kotlin/mj/carthy/profileservice/securities/services/TokenService.kt:42 | `awaitSingle()` on an empty result throws NoSuchElementException, so the `?: invalidAuth(username)` fallback is dead and an unknown username becomes a server error | a login with a username that is not in the repository | reject the unknown username as bad credentials, with AccessDenied and HTTP 401 | not executed | TokenService.LoginAsWritten, shown by TokenService.UnknownUserAsWritten | TokenService.Login |
| src/main/kotlin/mj/carthy/easyutils/validator/PasswordConstraintValidator.kt:59 | `StringUtils.joinWith(",", messages)` receives the list as one vararg element, so the template is the list's `toString`, "[m1, m2]" | a password of three lower-case letters, which fails several rules | the messages joined by the delimiter, "m1,m2" | not executed | PasswordValidator.IsValidAsWritten, shown by PasswordValidator.TemplateAsWritten | PasswordValidator.IsValid |
