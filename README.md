# Campushub support service — a Dafny model

This project models the core of the Campushub course-material service ("supports de
cours"). A teacher deposits a course material as a draft (`BROUILLON`) and submits it
(`SOUMIS`). A dean or an administrator then validates it (`VALIDÉ`, dated and with an
optional remark) or rejects it (`REJETÉ`). Each status change publishes a message to the
broker. Every endpoint has a `@PreAuthorize` rule. The rules use the caller's
authorities and an ownership check. That check looks the caller's user id up by username
in the user service. The authorities come from a JWT bearer token that a servlet filter
reads. They are the comma-separated `role` claim, upper-cased and prefixed with `ROLE_`.

The modules follow the program's classes:

- `SupportCoursModel` (`support_cours.dfy`): the `SupportCours` entity as a class
  with one field per column. It has the `@PrePersist` hook `OnCreate` and the
  `nullable = false` columns. `SupportRow` is the value of an entity's fields.
- `SupportCoursService` (`support_cours_service.dfy`): `SupportCoursServiceImpl` as a
  class. The repository table is a `map` field, the id generator is a counter, and the
  broker is a ghost log of `Event`s.
  - Each status operation loads the entity, changes its fields, publishes, and saves.
  - Each is proved equal to a value-level specification: `Apply` for the new table and
    `Published` for the events.
  - `Run` and `RunEvents` fold these over any sequence of requests, and lemmas about
    them state what holds after any history.
- `SecurityModel` and `SupportSecurity`: the authentication object, the user
  directory, and `isOwner` / `isUser`.
- `SupportCoursController`: the DTO conversion, each endpoint's access rule, the read
  endpoints, and the endpoints that call the service.
- `JwtService` and `JwtFilter`: bearer-token extraction, the mapping of claims to
  authorities, and the filter that installs the authentication and continues the chain.
  - The filter is a class. The security context and the filter chain are objects it
    updates.
  - Java's `String.split(",")` is modelled exactly: a string without a comma is its own
    only piece, and trailing empty pieces are removed.
- `SupportCoursScenarios`: the integration scenarios replayed on the model.

Parameters stand in for the environment:

- "today" (`LocalDate.now()`) is a `today` parameter;
- the user service is a `Directory` map from username to id, where an absent name is its
  `null` answer;
- the JWT library's signature check is a `JwtParser` function that yields the claims or
  nothing.

The model follows the code as written:

- No operation checks the current status. Submitting again, rejecting after validation,
  or deleting a validated material are all accepted, and a repeated submit publishes again.
- Rejecting keeps an earlier validation date, and submitting after validation keeps it
  too.
- Creating a material publishes nothing.
- A message carries only the routing key and the id. The service chooses no recipients
  and does not de-duplicate messages.
- Submitting an id that does not exist is refused as forbidden, because `isOwner` is
  false for it. Validating or rejecting one lets the "not found" exception escape.
- The create request's level and subject are dropped. The controller passes only the
  title, description and file URL.

## Model

| member | source | states |
|---|---|---|
| SecurityModel.LookupUserId | src/main/java/com/campushub/support/client/UserServiceClient.java:44-62 | The id lookup answers exactly for the usernames the user service knows, and `null` otherwise. |
| SupportCoursModel.WithCreateDefaults | src/main/java/com/campushub/support/model/SupportCours.java:49-57 | The hook sets a missing deposit date to today and a missing status to `BROUILLON`. Supplied values are kept and no other column changes. |
| SupportCoursModel.WithCreateDefaultsIdempotent | src/main/java/com/campushub/support/model/SupportCours.java:49-57 | Running the hook twice with the same date is the same as running it once. |
| SupportCoursModel.SatisfiesNotNullColumns | src/main/java/com/campushub/support/model/SupportCours.java:21-42 | A row can be stored exactly when `titre`, `fichierUrl`, `enseignantId` and `statut` (the `nullable = false` columns) are all present. |
| SupportCoursModel.NotNullAfterCreateDefaults | src/main/java/com/campushub/support/model/SupportCours.java:21-57 | After the hook the status is always set. An insert satisfies the not-null columns exactly when title, file URL and teacher id are present. |
| SupportCoursModel.SupportCours.OnCreate | src/main/java/com/campushub/support/model/SupportCours.java:49-57 | The entity's new fields are the creation defaults applied to its old fields. |
| SupportCoursService.Published | src/main/java/com/campushub/support/service/SupportCoursServiceImpl.java:85-108 | A status change on a stored id publishes one message with its routing key (`support.submitted`, `support.validated` or `support.rejected`) and the id. An unknown id, an update or a delete publishes nothing. |
| SupportCoursService.Submitted | src/main/java/com/campushub/support/service/SupportCoursServiceImpl.java:80-87 | Submit sets the status to `SOUMIS` and changes no other column. |
| SupportCoursService.Validated | src/main/java/com/campushub/support/service/SupportCoursServiceImpl.java:90-99 | Validate sets the status to `VALIDÉ`, the validation date to today and the remark to the given one (possibly null). Nothing else changes. |
| SupportCoursService.Rejected | src/main/java/com/campushub/support/service/SupportCoursServiceImpl.java:102-110 | Reject sets the status to `REJETÉ` and the remark. The validation date and every other column are kept. |
| SupportCoursService.Updated | src/main/java/com/campushub/support/service/SupportCoursServiceImpl.java:69-77 | Update replaces title, description and file URL. Teacher, status and dates are kept. |
| SupportCoursService.Apply | src/main/java/com/campushub/support/service/SupportCoursServiceImpl.java:69-115 | One request changes only its own row, and only delete removes a row. No request changes a row's id, teacher or deposit date. A well-formed table stays well-formed. |
| SupportCoursService.RunKeepsOwner | src/main/java/com/campushub/support/service/SupportCoursServiceImpl.java:69-115 | After any sequence of requests, every remaining row keeps its original id, teacher and deposit date. |
| SupportCoursService.RunKeepsWellFormed | src/main/java/com/campushub/support/service/SupportCoursServiceImpl.java:69-115 | After any sequence of requests, every row is stored under its own id and has every not-null column. |
| SupportCoursService.RunEventsPerCommand | src/main/java/com/campushub/support/service/SupportCoursServiceImpl.java:80-110 | A sequence of requests publishes at most one message per request, and each message names the id of one of the requests. |
| SupportCoursService.RunTwo | src/main/java/com/campushub/support/service/SupportCoursServiceImpl.java:69-115 | Two requests in a row have the same effect, and publish the same messages, as applying them one after the other. |
| SupportCoursService.ResubmitRepublishes | src/main/java/com/campushub/support/service/SupportCoursServiceImpl.java:80-87 | Submitting twice leaves the same table as submitting once but publishes `support.submitted` twice. |
| SupportCoursService.RejectAfterValidateKeepsDate | src/main/java/com/campushub/support/service/SupportCoursServiceImpl.java:90-110 | Rejecting a validated material makes it `REJETÉ` with the new remark and still carries the validation date. |
| SupportCoursService.SubmitAfterValidate | src/main/java/com/campushub/support/service/SupportCoursServiceImpl.java:80-99 | A validated material can be submitted again. It becomes `SOUMIS` and keeps its validation date. |
| SupportCoursService.SupportCoursServiceImpl.GetSupportById | src/main/java/com/campushub/support/service/SupportCoursServiceImpl.java:49-51 | The lookup finds a row exactly when the id is stored, and returns that row. |
| SupportCoursService.SupportCoursServiceImpl.GetSupportsByStatut | src/main/java/com/campushub/support/service/SupportCoursServiceImpl.java:64-66 | Returns exactly the stored rows with the given status, unchanged. |
| SupportCoursService.SupportCoursServiceImpl.GetSupportsByEnseignant | src/main/java/com/campushub/support/service/SupportCoursServiceImpl.java:59-61 | Returns exactly the stored rows of the given teacher, unchanged. |
| SupportCoursService.SupportCoursServiceImpl.Persist | src/main/java/com/campushub/support/service/SupportCoursServiceImpl.java:45 | Saving a new entity runs the creation hook. If the result has every not-null column, it is inserted under a fresh id that is written back to the entity. Otherwise the save is refused and the table is unchanged. |
| SupportCoursService.SupportCoursServiceImpl.Merge | src/main/java/com/campushub/support/service/SupportCoursServiceImpl.java:76 | Saving a loaded entity overwrites its row with the entity's fields, unless a not-null column is empty. Then the save is refused and the table is unchanged. |
| SupportCoursService.SupportCoursServiceImpl.CreateSupport | src/main/java/com/campushub/support/service/SupportCoursServiceImpl.java:32-46 | An unknown user is an error that stores nothing. A missing title or file URL is refused by the database. Otherwise a new draft is stored, deposited today, owned by the caller's id, with the given title, description and URL. No message is published. |
| SupportCoursService.SupportCoursServiceImpl.UpdateSupport | src/main/java/com/campushub/support/service/SupportCoursServiceImpl.java:69-77 | An unknown id is "not found" with no change. Otherwise the table is `Apply` of the update. The result is the updated row, or the database's refusal when the title or URL is cleared (the row is then unchanged). No message is published. |
| SupportCoursService.SupportCoursServiceImpl.SubmitSupport | src/main/java/com/campushub/support/service/SupportCoursServiceImpl.java:80-87 | An unknown id is "not found" with no change. Otherwise the row becomes `SOUMIS` and one `support.submitted` message with its id is published. |
| SupportCoursService.SupportCoursServiceImpl.ValidateSupport | src/main/java/com/campushub/support/service/SupportCoursServiceImpl.java:90-99 | An unknown id is "not found" with no change. Otherwise the row becomes `VALIDÉ`, dated today with the remark, and one `support.validated` message is published. |
| SupportCoursService.SupportCoursServiceImpl.RejectSupport | src/main/java/com/campushub/support/service/SupportCoursServiceImpl.java:102-110 | An unknown id is "not found" with no change. Otherwise the row becomes `REJETÉ` with the remark, and one `support.rejected` message is published. |
| SupportCoursService.SupportCoursServiceImpl.DeleteSupport | src/main/java/com/campushub/support/service/SupportCoursServiceImpl.java:113-115 | The id is removed whatever its status, and nothing else changes. |
| SupportSecurity.IsOwner | src/main/java/com/campushub/support/security/SupportSecurity.java:20-35 | False for an unauthenticated caller, an unknown username or an absent support. Otherwise true exactly when the support's teacher id is the caller's id. |
| SupportSecurity.IsUser | src/main/java/com/campushub/support/security/SupportSecurity.java:37-45 | True exactly when the caller is authenticated and the directory gives them the path's user id. |
| SupportSecurity.OwnerIsUserOfTeacherId | src/main/java/com/campushub/support/security/SupportSecurity.java:20-45 | Owning a support is the same as being the user whose id is its teacher id. |
| SupportSecurity.IsOwnerDependsOnlyOnTeachers | src/main/java/com/campushub/support/security/SupportSecurity.java:32-34 | Ownership depends only on which ids are stored and their teachers. Statuses, dates and remarks do not matter. |
| SupportCoursController.ConvertToDto | src/main/java/com/campushub/support/controller/SupportCoursController.java:26-38 | Nine fields are copied. Level and subject are left empty. |
| SupportCoursController.ConvertToDtoRoundTrip | src/main/java/com/campushub/support/controller/SupportCoursController.java:26-38 | Reading the DTO back gives the row with only level and subject cleared. |
| SupportCoursController.ConvertToDtoInjective | src/main/java/com/campushub/support/controller/SupportCoursController.java:26-38 | Two rows give the same DTO exactly when they agree outside level and subject. |
| SupportCoursController.Authorized | src/main/java/com/campushub/support/controller/SupportCoursController.java:42-111 | Each rule as an if-and-only-if over authorities, the directory and the store. Create needs `ROLE_TEACHER`. Listing all and get-by-id need an authenticated caller. The teacher listing needs `ROLE_ADMIN` or the caller's own id. Pending, validate and reject need `ROLE_DEAN` or `ROLE_ADMIN`. Submit needs `ROLE_TEACHER` and a stored support whose teacher is the caller. Delete needs `ROLE_ADMIN` or a stored support whose teacher is the caller. |
| SupportCoursController.AdminNonOwnerCannotSubmit | src/main/java/com/campushub/support/controller/SupportCoursController.java:90-111 | An administrator who does not own a support may delete it but not submit it. |
| SupportCoursController.SubmitRightImpliesDeleteRight | src/main/java/com/campushub/support/controller/SupportCoursController.java:90-111 | Whoever may submit a support may also delete it. |
| SupportCoursController.AuthorizationIgnoresStatus | src/main/java/com/campushub/support/controller/SupportCoursController.java:42-111 | No access rule depends on a status. Two stores with the same ids and teachers authorize exactly the same requests. |
| SupportCoursController.Read | src/main/java/com/campushub/support/controller/SupportCoursController.java:53-86 | An unauthorized read is forbidden. Get-by-id gives the converted row or "not found". The listings give exactly all rows, the teacher's rows, or the `SOUMIS` rows, each converted. |
| SupportCoursController.CreateSupport | src/main/java/com/campushub/support/controller/SupportCoursController.java:41-50 | A non-teacher is forbidden and nothing is stored. For a teacher, the result is "created" exactly when the user is known and title and URL are present. The body is then the new draft, owned by the caller. Otherwise the failure is `UserIdNotFound` for an unknown user and `NotNullViolation` for a missing title or URL, and nothing is stored. |
| SupportCoursController.SubmitSupport | src/main/java/com/campushub/support/controller/SupportCoursController.java:89-93 | An unauthorized submit is forbidden with no change. An authorized one always succeeds: the row becomes `SOUMIS` and exactly one message is published. |
| SupportCoursController.ValidateSupport | src/main/java/com/campushub/support/controller/SupportCoursController.java:96-100 | Only deans and administrators get through. They get the validated row, or the "not found" error for an unknown id. |
| SupportCoursController.RejectSupport | src/main/java/com/campushub/support/controller/SupportCoursController.java:103-107 | Only deans and administrators get through. They get the rejected row with the remark, or the "not found" error for an unknown id. |
| SupportCoursController.DeleteSupport | src/main/java/com/campushub/support/controller/SupportCoursController.java:110-116 | The owner or an administrator deletes the id, whatever its status, and gets "no content". Anyone else is forbidden with no change. |
| JwtService.ValidateToken | src/main/java/com/campushub/support/security/JwtService.java:30-38 | True exactly when the JWT library accepts the token. It is total and never throws. |
| JwtService.SplitAtCommas | src/main/java/com/campushub/support/security/JwtService.java:60 | Cutting at every comma gives at least one piece, and no piece holds a comma. |
| JwtService.JoinSplitAtCommas | src/main/java/com/campushub/support/security/JwtService.java:60 | Cutting at commas loses nothing: joining the pieces with commas gives the claim back. |
| JwtService.LastPieceNotEmpty | src/main/java/com/campushub/support/security/JwtService.java:60 | A claim with no trailing comma has a non-empty last piece. |
| JwtService.DropTrailingEmpty | src/main/java/com/campushub/support/security/JwtService.java:60 | The kept pieces are a prefix of the pieces. Only empty pieces are dropped, and the last kept piece is not empty. |
| JwtService.JavaSplit | src/main/java/com/campushub/support/security/JwtService.java:60 | `split(",")`: the empty claim is one empty piece. Otherwise the pieces between commas, in order, with the trailing empty ones removed. |
| JwtService.JavaSplitRoundTrip | src/main/java/com/campushub/support/security/JwtService.java:60 | Without a trailing comma, the pieces join back to the claim itself. |
| JwtService.SplitAtCommasConcat | src/main/java/com/campushub/support/security/JwtService.java:60 | Cutting `a,b` (with no comma in `a`) gives `a` followed by the pieces of `b`. |
| JwtService.SplitAtCommasNoComma | src/main/java/com/campushub/support/security/JwtService.java:60 | A claim without a comma is its own only piece. |
| JwtService.ToUpperCase | src/main/java/com/campushub/support/security/JwtService.java:61 | Upper-casing keeps the length and upper-cases each character. |
| JwtService.RoleAuthorities | src/main/java/com/campushub/support/security/JwtService.java:61-62 | One authority per piece, in order: `ROLE_` followed by the upper-cased piece. |
| JwtService.GetAuthoritiesFromJwt | src/main/java/com/campushub/support/security/JwtService.java:49-66 | A `role` claim that is not a string grants nothing. A string claim grants one authority per piece of its split. |
| JwtService.GrantedIffSomePiece | src/main/java/com/campushub/support/security/JwtService.java:58-62 | `ROLE_X` is granted exactly when some piece of the claim upper-cases to `X`. |
| JwtService.SingleRole | src/main/java/com/campushub/support/security/JwtService.java:58-62 | A single role in any letter case grants exactly that one upper-cased authority. |
| JwtService.UpperCaseOf | src/main/java/com/campushub/support/security/JwtService.java:61 | Upper-casing is determined character by character. |
| JwtService.JavaSplitDeanAdmin | src/main/java/com/campushub/support/security/JwtService.java:60 | `"dean, admin"` splits into `"dean"` and `" admin"`. |
| JwtService.JavaSplitEmptyPieces | src/main/java/com/campushub/support/security/JwtService.java:60 | `"a,,b,"` splits into `"a"`, `""` and `"b"`. |
| JwtService.JavaSplitCommasOnly | src/main/java/com/campushub/support/security/JwtService.java:60 | `",,"` splits into no pieces. |
| JwtService.RoleAuthoritiesDeanAdmin | src/main/java/com/campushub/support/security/JwtService.java:61-62 | The pieces `"dean"` and `" admin"` grant `ROLE_DEAN` and `ROLE_ ADMIN`. |
| JwtService.PiecesAreNotTrimmed | src/main/java/com/campushub/support/security/JwtService.java:58-62 | A claim `"dean, admin"` does not grant `ROLE_ADMIN`, because pieces are not trimmed. |
| JwtService.EmptyPieces | src/main/java/com/campushub/support/security/JwtService.java:58-62 | An empty middle piece grants the bare `ROLE_`. A trailing comma adds nothing. |
| JwtService.EmptyAndCommaOnlyClaims | src/main/java/com/campushub/support/security/JwtService.java:58-62 | An empty claim grants `ROLE_`. A claim of commas only grants nothing. |
| JwtFilter.HasText | src/main/java/com/campushub/support/security/JwtAuthenticationFilter.java:65 | `StringUtils.hasText`: the string is present and holds a character that `Character.isWhitespace` rejects. |
| JwtFilter.GetJwtFromRequest | src/main/java/com/campushub/support/security/JwtAuthenticationFilter.java:63-69 | A header without text gives no token. Otherwise a token is given exactly when the header starts with `Bearer `; the header is then the prefix followed by the token. |
| JwtFilter.ExtractedIffBearerPrefix | src/main/java/com/campushub/support/security/JwtAuthenticationFilter.java:65 | The text test adds nothing to the prefix test: a token is extracted exactly when the header starts with `Bearer `. |
| JwtFilter.BearerRoundTrip | src/main/java/com/campushub/support/security/JwtAuthenticationFilter.java:63-69 | Whatever follows `Bearer ` is returned as the token. |
| JwtFilter.BearerPrefixIsExact | src/main/java/com/campushub/support/security/JwtAuthenticationFilter.java:65 | A lower-case `bearer`, a tab instead of the space, or a bare `Bearer` gives no token. |
| JwtFilter.PrincipalId | src/main/java/com/campushub/support/security/JwtService.java:68-75 | The principal's id is the numeric `id` claim, or null when the claim is absent. |
| JwtFilter.ClaimsThrow | src/main/java/com/campushub/support/security/JwtAuthenticationFilter.java:37-48 | Reading the claims throws when the `id` claim cannot be converted to `Long`, or when the subject is absent or empty, which the `User` constructor refuses. |
| JwtFilter.AuthenticationFromHeader | src/main/java/com/campushub/support/security/JwtAuthenticationFilter.java:33-58 | An authentication is built exactly when the token has text, is valid, and its claims read without an exception. It is then authenticated, with the token's subject, id and role authorities. |
| JwtFilter.ValidTokenAuthenticates | src/main/java/com/campushub/support/security/JwtAuthenticationFilter.java:33-55 | A valid bearer token with clean claims authenticates its subject with its role authorities. |
| JwtFilter.NoHeaderNoAuthentication | src/main/java/com/campushub/support/security/JwtAuthenticationFilter.java:36 | A missing or blank header never authenticates. |
| JwtFilter.JwtAuthenticationFilter.DoFilterInternal | src/main/java/com/campushub/support/security/JwtAuthenticationFilter.java:30-61 | The chain is continued exactly once. The context gets the token's authentication when there is one and is left as it was otherwise. |
| SupportCoursScenarios.TeacherCreatesSupport | src/test/java/com/campushub/support/SupportCoursIntegrationTest.java:62-76 | A teacher's create answers "created", with the teacher's id 1, the given file URL and status `BROUILLON`. |
| SupportCoursScenarios.StudentCannotCreateSupport | src/test/java/com/campushub/support/SupportCoursIntegrationTest.java:78-89 | A student's create is forbidden and nothing is stored. |
| SupportCoursScenarios.OwnerSubmitsSupport | src/test/java/com/campushub/support/SupportCoursIntegrationTest.java:91-104 | The owner's submit answers the row as `SOUMIS` and publishes exactly one `support.submitted` message. |
| SupportCoursScenarios.NonOwnerCannotSubmitSupport | src/test/java/com/campushub/support/SupportCoursIntegrationTest.java:106-118 | Another teacher's submit is forbidden, and the support stays `BROUILLON`. |
| SupportCoursScenarios.DeanSeesPendingSupports | src/test/java/com/campushub/support/SupportCoursIntegrationTest.java:120-133 | The dean's pending listing holds exactly the one pending support, with its title. |
| SupportCoursScenarios.TeacherCannotSeePendingSupports | src/test/java/com/campushub/support/SupportCoursIntegrationTest.java:135-140 | A teacher's pending listing is forbidden. |
| SupportCoursScenarios.DeanValidatesSupport | src/test/java/com/campushub/support/SupportCoursIntegrationTest.java:142-157 | The dean's validate answers the row as `VALIDÉ`, dated today with the remark `Looks good`, and publishes one `support.validated` message. |

## Left out

- The HTTP call to the user service is not modelled. It is the `Directory` map, where an
  absent name is the `null` its error path returns.
- The broker is a ghost log of (routing key, id) messages. Exchange configuration, message
  conversion and delivery are not modelled.
- A publish that throws (broker unreachable) is not modelled: appending to the log always
  succeeds. In the code the message is sent before `save`, so such an exception escapes,
  the request fails, and the row keeps its old status.
- The JWT signature, expiry and parsing belong to the JWT library. They are the
  `JwtParser` function, and `ValidateToken` is true exactly when it yields claims.
- `getUsernameFromJWT` and `getIdFromJWT` re-parse the token. The model reads the
  subject and the `id` claim from the one parse.
- An `id` claim that cannot be converted to `Long` is one exception case. An absent
  or empty subject, which the `User` constructor refuses, is the other. Both are caught
  by the filter and install nothing.
- The filter builds `CustomUserDetails` with four arguments, but the class declares only
  a five-argument constructor that also takes the token. The model follows the filter's
  evident intent and does not model the token field.
- The request details set on the authentication (`WebAuthenticationDetailsSource`) are
  not modelled.
- `User` keeps authorities as a sorted set. The model keeps the grant order, and every
  rule tests membership only.
- ToUpperCase: upper-cases ASCII letters only. Java's locale-dependent, full-Unicode
  upper-casing is not modelled.
- Spring's evaluation of `@PreAuthorize` and SpEL are not modelled. Each rule is written
  as a predicate. An absent or anonymous authentication is `None` or unauthenticated.
- HTTP status codes for exceptions that escape the service are not modelled. The response
  is `Failed(error)`.
- The reject body being required (a 400 when it is missing) is not modelled. The
  endpoint takes a string.
- Listings are maps from id to DTO. The order of the lists the repository returns is not
  modelled.
- Ids are unbounded integers, and the 64-bit width of `Long` is not modelled.
- `deleteById` of an absent id changes nothing, as in Spring Data 3. Older versions that
  throw are not modelled.
- Dates are integers (days). `LocalDate.now()` is the `today` parameter.
- The `Statut` and `Niveau` enum files are not part of this model.
  - `Statut` has the four constants the service uses.
  - `Niveau` is an opaque name, because the service only copies it.
- The service's `getAllSupports` is the controller's full listing in `Read`.
  `updateSupport` is modelled in the service, although no endpoint calls it.
- Concurrency between requests is not modelled. Each request runs to completion on the
  table.
