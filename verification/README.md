# Blog backend core — a Dafny model

A model of the decision logic of a Kotlin Spring Boot blog backend:

- the per-request authentication filter: public-path bypass, reading credentials from the
  `Authorization: Bearer <apiKey> <accessToken>` header or from cookies, resolving the member
  (access token first, then API key), and turning each failure into a `401` response;
- the entities: `BaseEntity` identity (class and id), `Member` with its admin flag, authorities and
  mutators, `Post` with its ordered comment list and the author-only modify/delete checks;
- the result envelope `RsData` and `ServiceException`, whose HTTP status is the number written before
  the first `-` of the result code;
- the post endpoints (`getItems`, `getItem`, `write`, `modify`, `delete`) as transformers of a
  `map<int, Post>` store, with request-body validation and the 400 / 404 / 403 order;
- the request helper `Rq` (headers, cookie lookup, cookie attributes, the current actor), the
  member-to-DTO projection, the OAuth2 provider dispatch with username construction, and the
  post-login redirect taken from the `state` parameter.

Everything is immutable datatypes and pure functions; exceptions are `Result`/`Option` error
values. The JWT decoder, the member lookup by API key, the base64url/UTF-8 state decoder, the random
API key and the database-assigned post id are inputs.

Files: `types.dfy` (Option, Result), `text.dfy` (Kotlin/JVM string and integer behaviour: `isBlank`, `trim()`-blankness,
`split` with a limit, `toInt`, integer formatting, UTF-16 length and `String.hashCode`),
`entity.dfy`, `member.dfy`, `member_dto.dfy`, `rs_data.dfy`, `service_exception.dfy`, `post.dfy`,
`post_controller.dfy`, `security_user.dfy`, `rq.dfy`, `auth_filter.dfy`, `oauth2.dfy`.

## Model

| member | source | states |
|---|---|---|
| Text.Split | backend/src/main/java/com/back/global/security/CustomAuthenticationFilter.kt:85 | `split(d, limit)` yields at least one and at most `limit` pieces |
| Text.SplitJoin | backend/src/main/java/com/back/global/rsData/RsData.kt:14 | putting `d` back between the pieces gives the original text |
| Text.SplitPiecesFree | backend/src/main/java/com/back/global/rsData/RsData.kt:14 | no piece but the last contains `d` |
| Text.SplitLastPieceFree | backend/src/main/java/com/back/global/rsData/RsData.kt:14 | when fewer than `limit` pieces came out, the last contains no `d` either |
| Text.SplitFirstPiece | backend/src/main/java/com/back/global/rsData/RsData.kt:14 | the first piece is the text before the first `d` (the whole text when there is none); it is a prefix of the input without `d` |
| Text.ParseInt | backend/src/main/java/com/back/global/rsData/RsData.kt:14 | `toInt` succeeds only on digits with at most one leading `+` or `-`; an unsigned or `+` text gives its decimal value when that fits an `Int` and fails otherwise; a `-` text gives the negated value down to `Int.MIN_VALUE` |
| Text.ParseFormatRoundTrip | backend/src/main/java/com/back/global/rsData/RsData.kt:14 | `toInt` reads back every `Int` written by `toString` |
| Text.AsciiUpper | backend/src/main/java/com/back/global/security/CustomOAuth2UserService.kt:20 | upper-casing keeps the length, maps each `a`..`z` to its capital and keeps every other character |
| Entities.Equals | backend/src/main/java/com/back/global/jpa/entity/BaseEntity.kt:31-37 | `equals` is false against `null` and otherwise compares runtime class and id; the identity shortcut never changes the answer |
| Entities.LongHash | backend/src/main/java/com/back/global/jpa/entity/BaseEntity.kt:39 | `Long.hashCode`: the exclusive-or of the two 32-bit halves of the two's-complement value, read as a signed `Int` (always an `Int`) |
| Entities.HashCode | backend/src/main/java/com/back/global/jpa/entity/BaseEntity.kt:39 | the hash is an `Int`, and 0 for an unsaved entity |
| Entities.UnsavedEntitiesEqual | backend/src/main/java/com/back/global/jpa/entity/BaseEntity.kt:36 | two unsaved entities of one class are equal |
| Entities.EqualsIsEquivalence | backend/src/main/java/com/back/global/jpa/entity/BaseEntity.kt:31-37 | `equals` is reflexive, symmetric, transitive and false against `null` |
| Entities.HashConsistentWithEquals | backend/src/main/java/com/back/global/jpa/entity/BaseEntity.kt:39 | equal entities have equal hashes |
| Entities.LongHashOfSmallId | backend/src/main/java/com/back/global/jpa/entity/BaseEntity.kt:39 | an id in `0..Int.MAX_VALUE` hashes to itself |
| Entities.LongHashOfNegativeInt | backend/src/main/java/com/back/global/jpa/entity/BaseEntity.kt:39 | a negative id in `Int` range hashes to its bitwise complement `-id - 1` (so -1 hashes to 0) |
| Members.SameMemberIffSameId | backend/src/main/java/com/back/global/jpa/entity/BaseEntity.kt:31-37 | two members are equal exactly when their ids are |
| Members.WithIdentity | backend/src/main/java/com/back/domain/member/member/entity/Member.kt:33-37 | the identity constructor sets id, username and name; password, API key and image stay null |
| Members.NewMember | backend/src/main/java/com/back/domain/member/member/entity/Member.kt:39-45 | a new member is unsaved and always has a non-null API key; the other fields are the arguments |
| Members.IsAdmin | backend/src/main/java/com/back/domain/member/member/entity/Member.kt:51-52 | a member is an admin exactly when its username is one of `system` and `admin`; a null username is not |
| Members.Authorities | backend/src/main/java/com/back/domain/member/member/entity/Member.kt:54-60 | an admin has exactly the role `ROLE_ADMIN`; anyone else has none |
| Members.ModifyApiKey | backend/src/main/java/com/back/domain/member/member/entity/Member.kt:47-49 | only the API key changes |
| Members.Modify | backend/src/main/java/com/back/domain/member/member/entity/Member.kt:62-65 | only the name and the profile image change |
| Members.MutatorsKeepIdentity | backend/src/main/java/com/back/domain/member/member/entity/Member.kt:47-65 | neither mutator changes entity identity or the admin flag |
| Members.ProfileImgUrlOrDefault | backend/src/main/java/com/back/domain/member/member/entity/Member.kt:67-68 | the stored image URL, or the placeholder URL when there is none |
| MemberDto.FromMember | backend/src/main/java/com/back/domain/member/member/dto/MemberWithUsernameDto.kt:15-23 | the projection exists exactly when id and username are non-null; it copies them, mirrors `isAdmin`, defaults the name to `""` and the image to the placeholder |
| MemberDto.DtoDefaults | backend/src/main/java/com/back/domain/member/member/dto/MemberWithUsernameDto.kt:15-23 | a member built from id and username alone shows `""`, the placeholder, and the admin flag of its name |
| MemberDto.DtoTracksMutators | backend/src/main/java/com/back/domain/member/member/dto/MemberWithUsernameDto.kt:15-23 | after `modify` the view shows the new name and image (with their defaults) and nothing else changes; `modifyApiKey` leaves the view as it was |
| MemberDto.DtoHidesCredentials | backend/src/main/java/com/back/domain/member/member/dto/MemberWithUsernameDto.kt:15-23 | members with the same id and username have the same view exactly when their names and images agree, whatever their passwords and API keys |
| ResultEnvelope.StatusOf | backend/src/main/java/com/back/global/rsData/RsData.kt:14 | a parsed status is an `Int`; an empty code, or one starting with `-` or with any other character that is neither a digit nor `+`, has no status |
| ResultEnvelope.StatusOfPrefix | backend/src/main/java/com/back/global/rsData/RsData.kt:14 | the status is `toInt` of the text up to the first `-` (the whole code without one), located by position |
| ResultEnvelope.StatusOfMalformedCodes | backend/src/main/java/com/back/global/rsData/RsData.kt:14 | `""`, `4x-1`, `-401` and `+-1` have no status, so the constructor would throw |
| ResultEnvelope.StatusOfNumericPrefix | backend/src/main/java/com/back/global/rsData/RsData.kt:14 | a code `<status>-<anything>` reads back as that status |
| ResultEnvelope.StatusOfWholeNumber | backend/src/main/java/com/back/global/rsData/RsData.kt:14 | a code without `-` that is a number reads back as that number |
| ResultEnvelope.StatusOfThreeDigitCode | backend/src/main/java/com/back/global/rsData/RsData.kt:14 | a code written `ddd-<anything>`, as every code of the core is, has the status `ddd` (so `403-1` is 403 and `201-1` is 201) |
| ResultEnvelope.Make | backend/src/main/java/com/back/global/rsData/RsData.kt:11-17 | the secondary constructor succeeds exactly when the prefix parses, with that status and the other fields unchanged |
| ResultEnvelope.MakeWithoutData | backend/src/main/java/com/back/global/rsData/RsData.kt:12 | omitting `data` gives `null` data |
| ResultEnvelope.Known | backend/src/main/java/com/back/global/rsData/RsData.kt:11-17 | a constructor call with a `ddd-` code cannot fail, agrees with the general constructor and has status `ddd` |
| ResultEnvelope.NewDataOf | backend/src/main/java/com/back/global/rsData/RsData.kt:19-21 | code, status and message are kept; only the data is replaced |
| ResultEnvelope.Equals | backend/src/main/java/com/back/global/rsData/RsData.kt:23-35 | `equals` is false against `null` and otherwise compares code, status, message and data |
| ResultEnvelope.EqualsIsValueEquality | backend/src/main/java/com/back/global/rsData/RsData.kt:23-35 | `equals` holds exactly for envelopes with the same four fields, never against `null` |
| ResultEnvelope.HashCode | backend/src/main/java/com/back/global/rsData/RsData.kt:37-43 | the hash is an `Int` |
| ResultEnvelope.HashConsistentWithEquals | backend/src/main/java/com/back/global/rsData/RsData.kt:37-43 | equal envelopes have equal hashes |
| Exceptions.Message | backend/src/main/java/com/back/global/exception/ServiceException.kt:8 | the message is the code, `" : "`, and the message text, in that order |
| Exceptions.MessageStartsWithCode | backend/src/main/java/com/back/global/exception/ServiceException.kt:8 | a code without spaces is the first word of the exception message |
| Exceptions.GetRsData | backend/src/main/java/com/back/global/exception/ServiceException.kt:10-12 | the envelope carries code and message unchanged, `null` data, and the status parsed from the code |
| Exceptions.SameExceptionSameRsData | backend/src/main/java/com/back/global/exception/ServiceException.kt:10-12 | exceptions with the same code and message give equal envelopes |
| Exceptions.GetRsDataStatus | backend/src/main/java/com/back/global/exception/ServiceException.kt:11 | an exception coded `<status>-<sub>` gives an envelope with that status |
| Posts.Comments | backend/src/main/java/com/back/domain/post/post/entity/Post.kt:25 | the comment list is a copy, element for element in order |
| Posts.Modify | backend/src/main/java/com/back/domain/post/post/entity/Post.kt:27-30 | title and content are replaced; id, author and comments are untouched |
| Posts.AddComment | backend/src/main/java/com/back/domain/post/post/entity/Post.kt:35-39 | exactly one new comment (given author, this post, given content, unsaved) is appended and returned; the rest of the post is unchanged |
| Posts.FindCommentById | backend/src/main/java/com/back/domain/post/post/entity/Post.kt:41-46 | the first comment with that id, or empty exactly when no comment has it |
| Posts.FirstEqual | backend/src/main/java/com/back/domain/post/post/entity/Post.kt:49 | the position `remove` uses: the first comment equal under entity equality, or none exactly when there is none |
| Posts.FirstEqualAt | backend/src/main/java/com/back/domain/post/post/entity/Post.kt:49 | an equal comment with no equal one before it is the one `remove` finds |
| Posts.DeleteComment | backend/src/main/java/com/back/domain/post/post/entity/Post.kt:48-50 | `null` changes nothing and answers false; otherwise the first comment with the argument's id is removed, and the answer says whether one existed |
| Posts.AddThenDeleteComment | backend/src/main/java/com/back/domain/post/post/entity/Post.kt:35-50 | on a post whose comments are saved, deleting the comment just added restores the post |
| Posts.FoundCommentIsDeleted | backend/src/main/java/com/back/domain/post/post/entity/Post.kt:41-50 | the comment found by id is the one deleting it removes |
| Posts.CheckActorCanModify | backend/src/main/java/com/back/domain/post/post/entity/Post.kt:52-56 | passes exactly for the author; anyone else gets `403-1` naming the post |
| Posts.CheckActorCanDelete | backend/src/main/java/com/back/domain/post/post/entity/Post.kt:58-62 | passes exactly for the author; anyone else gets `403-2` naming the post |
| Posts.OwnershipChecksAgree | backend/src/main/java/com/back/domain/post/post/entity/Post.kt:52-62 | both checks pass for the same actors |
| Posts.OwnershipRefusalIs403 | backend/src/main/java/com/back/domain/post/post/entity/Post.kt:52-62 | either refusal becomes an envelope with status 403 |
| PostController.ValidField | backend/src/main/java/com/back/domain/post/post/controller/ApiV1PostController.kt:59-60 | `@NotBlank` (a character above U+0020 survives `trim()`) and `@Size(min = 2, max)` counted in UTF-16 units |
| PostController.ValidBody | backend/src/main/java/com/back/domain/post/post/controller/ApiV1PostController.kt:58-66 | both request bodies: the title passes with a maximum of 100, the content with a maximum of 5000 |
| PostController.EmptyTitleInvalid | backend/src/main/java/com/back/domain/post/post/controller/ApiV1PostController.kt:58-66 | an empty title fails validation |
| PostController.ValidFieldInPlane | backend/src/main/java/com/back/domain/post/post/controller/ApiV1PostController.kt:58-66 | for text in the Basic Multilingual Plane a field is valid exactly when it has 2 to `max` characters and one above U+0020 (`@NotBlank` is `trim()`-based) |
| PostController.ValidFieldCharCount | backend/src/main/java/com/back/domain/post/post/controller/ApiV1PostController.kt:58-66 | a valid field has 1 to `max` characters; a single character passes exactly when it is outside the Basic Multilingual Plane (two UTF-16 units) |
| PostController.NoBreakSpacesAreContent | backend/src/main/java/com/back/domain/post/post/controller/ApiV1PostController.kt:59-60 | two no-break spaces are a valid title, though Kotlin `isBlank` calls them blank |
| PostController.ControlCharactersAreBlank | backend/src/main/java/com/back/domain/post/post/controller/ApiV1PostController.kt:59-60 | two NUL characters are a blank title, though Kotlin `isBlank` does not call them blank |
| PostController.GetItem | backend/src/main/java/com/back/domain/post/post/controller/ApiV1PostController.kt:40-43 | the stored post, or `404-1` naming the id exactly when the id is absent |
| PostController.Delete | backend/src/main/java/com/back/domain/post/post/controller/ApiV1PostController.kt:48-56 | a missing id is `404-1` before ownership; a non-author gets `403-2`; the author removes exactly that post and gets `200-1` naming the id |
| PostController.Write | backend/src/main/java/com/back/domain/post/post/controller/ApiV1PostController.kt:71-80 | a body passing `@NotBlank` (something left after `trim()`) and `@Size` (2..100 and 2..5000 UTF-16 units) stores a new comment-less post by the actor under the new id, keeps every other post, and answers `201-1` naming the id with the post as data; an invalid body is `400-1` |
| PostController.Modify | backend/src/main/java/com/back/domain/post/post/controller/ApiV1PostController.kt:95-106 | validation (`@NotBlank` as `trim()`, `@Size` in UTF-16 units), then `404-1`, then `403-1`; the author's post gets the new title and content only, and no other post changes; `200-1` |
| PostController.EndpointsPreserveStoreInv | backend/src/main/java/com/back/domain/post/post/controller/ApiV1PostController.kt:48-106 | `write`, `modify` and `delete` keep every post stored under its own id |
| PostController.WriteThenGetItem | backend/src/main/java/com/back/domain/post/post/controller/ApiV1PostController.kt:40-80 | a written post is then found under its id |
| PostController.DeleteThenGetItem | backend/src/main/java/com/back/domain/post/post/controller/ApiV1PostController.kt:40-56 | a deleted post is no longer found, and deleting it again is `404-1` |
| PostController.DescendingIds | backend/src/main/java/com/back/domain/post/post/controller/ApiV1PostController.kt:33 | the ids of the store, each exactly once, from largest to smallest |
| PostController.GetItems | backend/src/main/java/com/back/domain/post/post/controller/ApiV1PostController.kt:32-35 | every stored post exactly once, ids strictly descending |
| Rq.GetHeader | backend/src/main/java/com/back/global/rq/Rq.kt:33-34 | the header's value, or the default when absent |
| Rq.FirstNamed | backend/src/main/java/com/back/global/rq/Rq.kt:42 | the position of the first cookie with that name, or none exactly when no cookie has it |
| Rq.GetCookieValue | backend/src/main/java/com/back/global/rq/Rq.kt:40-45 | only the first cookie with the name counts: its value if non-blank, else the default; the default without cookies; any other answer is a non-blank value of such a cookie |
| Rq.NewCookie | backend/src/main/java/com/back/global/rq/Rq.kt:47-56 | `null` becomes `""`; path `/`, domain `localhost`, HTTP-only, secure, `SameSite=Strict`; max age 0 exactly for a null or blank value, one year otherwise |
| Rq.SetCookie | backend/src/main/java/com/back/global/rq/Rq.kt:47-56 | exactly one cookie is added, after the existing ones |
| Rq.DeleteCookie | backend/src/main/java/com/back/global/rq/Rq.kt:59 | deleting is setting `null`: an empty value, max age 0, path `/`, HTTP-only |
| Rq.SetThenGetCookie | backend/src/main/java/com/back/global/rq/Rq.kt:40-59 | a cookie set with a non-blank value reads back as it; a deleted or blank one reads back as the default |
| Rq.GetActor | backend/src/main/java/com/back/global/rq/Rq.kt:19-30 | with a `SecurityUser` principal, a member with its id, username and nickname (`""` for null); with none, failure |
| AuthFilter.NeedsAuthentication | backend/src/main/java/com/back/global/security/CustomAuthenticationFilter.kt:25-31 | a request is authenticated exactly when its URI starts with `/api/` and is not login, logout or join |
| AuthFilter.AuthErrorIs401 | backend/src/main/java/com/back/global/security/CustomAuthenticationFilter.kt:82-112 | each of the four filter errors gives an envelope with status 401 |
| AuthFilter.BearerCredentials | backend/src/main/java/com/back/global/security/CustomAuthenticationFilter.kt:85-88 | `split(" ", limit = 3)` pieces 2 and 3, `""` when missing; the API key never contains a space |
| AuthFilter.BearerHeaderSplit | backend/src/main/java/com/back/global/security/CustomAuthenticationFilter.kt:85-88 | after `"Bearer "`, the API key runs to the next space and the access token is the rest, spaces included; a missing token is `""` |
| AuthFilter.BearerKeyAndToken | backend/src/main/java/com/back/global/security/CustomAuthenticationFilter.kt:85-88 | `"Bearer k t"` gives `(k, t)` and `"Bearer k"` gives `(k, "")` |
| AuthFilter.BlankHeaderNotBearer | backend/src/main/java/com/back/global/security/CustomAuthenticationFilter.kt:80-81 | a blank header is never a Bearer header |
| AuthFilter.ExtractCredentials | backend/src/main/java/com/back/global/security/CustomAuthenticationFilter.kt:77-94 | a blank or absent header means both values come from the cookies; a non-blank non-Bearer header is `401-2`; a Bearer header supplies both values |
| AuthFilter.IntClaimOf | backend/src/main/java/com/back/global/security/CustomAuthenticationFilter.kt:100 | a claim is read as an id exactly when present with an `Int` value, and the id is that value |
| AuthFilter.StringClaimOf | backend/src/main/java/com/back/global/security/CustomAuthenticationFilter.kt:101-102 | a claim is read as text exactly when present with a string value, and the text is that value |
| AuthFilter.AuthenticateUser | backend/src/main/java/com/back/global/security/CustomAuthenticationFilter.kt:96-114 | a decodable non-blank token decides alone (its `Int` id, else `401-4`); otherwise a non-blank key is looked up (`401-3` when unknown); else `401-5` |
| AuthFilter.TokenTakesPrecedence | backend/src/main/java/com/back/global/security/CustomAuthenticationFilter.kt:98-105 | with a decodable token, neither the API key nor the member store changes the outcome |
| AuthFilter.ToSecurityUser | backend/src/main/java/com/back/global/security/CustomAuthenticationFilter.kt:116-132 | the installed identity exists exactly for a member with id and username, with an empty password, the name or `""`, and the member's authorities |
| AuthFilter.InstalledIdentityIsActor | backend/src/main/java/com/back/global/security/CustomAuthenticationFilter.kt:117-123 | the installed identity reads back through `getActor` as the same member, with the same admin flag |
| AuthFilter.HandleServiceException | backend/src/main/java/com/back/global/security/CustomAuthenticationFilter.kt:134-141 | the response status is the number before the `-` of the error's code, and the body is its envelope |
| AuthFilter.HandleAuthError | backend/src/main/java/com/back/global/security/CustomAuthenticationFilter.kt:134-141 | each filter error is answered with status 401 and its own envelope |
| AuthFilter.RejectedInjective | backend/src/main/java/com/back/global/security/CustomAuthenticationFilter.kt:82-112 | different filter errors give different responses |
| AuthFilter.Filter | backend/src/main/java/com/back/global/security/CustomAuthenticationFilter.kt:34-75 | public paths continue without identity; every response is one of the four 401 errors, with status equal to its code's prefix; an identity is installed only on a protected path; with FilterInstallsAuthenticatedMember and FilterRejectsFailedAuthentication, a protected request with non-blank credentials either continues as the authenticated member or is rejected with the authentication error |
| AuthFilter.FilterInstallsAuthenticatedMember | backend/src/main/java/com/back/global/security/CustomAuthenticationFilter.kt:61-74 | on a protected path with non-blank credentials, a successful authentication (token or API key, header or cookies) continues with that member's identity installed |
| AuthFilter.InstalledIdentityWasAuthenticated | backend/src/main/java/com/back/global/security/CustomAuthenticationFilter.kt:61-74 | conversely, an installed identity is always that of the member the request's credentials authenticate |
| AuthFilter.FilterRejectsFailedAuthentication | backend/src/main/java/com/back/global/security/CustomAuthenticationFilter.kt:61-74 | the filter fails closed: on a protected path with non-blank credentials, an authentication failure `k` (`401-3`, `401-4` or `401-5`) is answered with `k`'s 401 response |
| AuthFilter.ApiKeyCookieAuthenticates | backend/src/main/java/com/back/global/security/CustomAuthenticationFilter.kt:61-92 | a protected request with no header and a known `apiKey` cookie continues as that key's member |
| AuthFilter.PublicPathsIgnoreCredentials | backend/src/main/java/com/back/global/security/CustomAuthenticationFilter.kt:55-59 | a path outside `/api/`, or an excluded one, continues without identity whatever the request carries |
| AuthFilter.NonBearerHeaderRejected | backend/src/main/java/com/back/global/security/CustomAuthenticationFilter.kt:80-83 | a protected request with a non-blank non-Bearer header is answered `401-2`, and the chain does not run |
| AuthFilter.NoCredentialsContinueAnonymously | backend/src/main/java/com/back/global/security/CustomAuthenticationFilter.kt:63-66 | with both values blank the request continues without identity |
| AuthFilter.FilterRejection | backend/src/main/java/com/back/global/security/CustomAuthenticationFilter.kt:61-75 | a `401-2` response comes from the header check; any other comes from authentication of non-blank credentials |
| AuthFilter.NoCredentialsErrorReachability | backend/src/main/java/com/back/global/security/CustomAuthenticationFilter.kt:107-113 | `401-5` is answered only for a blank API key with a non-blank token that does not decode |
| AuthFilter.MissingCredentialsOnlyWhen | backend/src/main/java/com/back/global/security/CustomAuthenticationFilter.kt:96-114 | authentication reports missing credentials only for a blank key and no decodable token |
| AuthFilter.BearerTokenAuthenticates | backend/src/main/java/com/back/global/security/CustomAuthenticationFilter.kt:77-105 | a Bearer header with a decodable token holding an `Int` id and a username installs that id and username, whatever the key and the store |
| OAuth2.TextOf | backend/src/main/java/com/back/global/security/CustomOAuth2UserService.kt:52 | an attribute is read as text exactly when it is present and a string |
| OAuth2.ObjectOf | backend/src/main/java/com/back/global/security/CustomOAuth2UserService.kt:47 | an attribute is read as a nested object exactly when it is present and a map |
| OAuth2.ExtractUserInfo | backend/src/main/java/com/back/global/security/CustomOAuth2UserService.kt:41-78 | KAKAO needs a `properties` object and reads nickname and image there; GOOGLE reads `name` and `picture`; NAVER needs a `response` object and takes its string `id`, else the principal name; a missing or non-string field is `null`; any other provider fails |
| OAuth2.ExtractUserInfoSucceeds | backend/src/main/java/com/back/global/security/CustomOAuth2UserService.kt:41-78 | extraction succeeds exactly for GOOGLE, for KAKAO with a `properties` object, and for NAVER with a `response` object |
| OAuth2.ExtractUserInfoReadsOnlyNamedAttributes | backend/src/main/java/com/back/global/security/CustomOAuth2UserService.kt:41-78 | with the principal name held fixed, changing any top-level attribute other than `properties`, `name`, `picture` and `response` changes nothing |
| OAuth2.OAuthUserIdSource | backend/src/main/java/com/back/global/security/CustomOAuth2UserService.kt:41-78 | the provider's user id is the principal name unless NAVER's `response` carries a text `id`, which is then used |
| OAuth2.LoadUser | backend/src/main/java/com/back/global/security/CustomOAuth2UserService.kt:18-23 | loading fails exactly when extraction fails; otherwise the username is the upper-cased registration id, `__`, and the provider's user id, with an empty password and the extracted profile |
| OAuth2.UsernameRoundTrip | backend/src/main/java/com/back/global/security/CustomOAuth2UserService.kt:23 | provider and provider user id can be read back from the username |
| OAuth2.RegistrationIdCaseIgnored | backend/src/main/java/com/back/global/security/CustomOAuth2UserService.kt:20-23 | a lower-case `google` registration is accepted and named `GOOGLE__<principal name>` |
| OAuth2.ExtractRedirectUrl | backend/src/main/java/com/back/global/security/CustomOAuth2LoginSuccessHandler.kt:37-49 | `/` without a state or when it does not decode; otherwise a prefix of the decoded text without `#`, all of it when it has no `#` |
| OAuth2.RedirectDropsFragment | backend/src/main/java/com/back/global/security/CustomOAuth2LoginSuccessHandler.kt:45 | a state decoding to `<url>#<fragment>` redirects to `<url>` |
| OAuth2.EmptyStateRedirectsToEmpty | backend/src/main/java/com/back/global/security/CustomOAuth2LoginSuccessHandler.kt:45 | a state decoding to empty text redirects to `""`, not `/` |

## Left out

- JWT signing, verification and expiry: the access-token decoder is an input returning the payload or nothing.
- The member lookup by API key is an input map; `MemberService` is not part of this model.
- Token refresh: the test at `ApiV1MemberControllerTest.kt` lines 183-212 expects a re-issued `accessToken` cookie and `Authorization` header after an API-key authentication; `CustomAuthenticationFilter.kt` as written has no such step (lines 71-74 go straight from `authenticateUser` to `setSecurityContext` and the chain), so the model follows the code and does not refresh.
- The Spring Security context, servlet filter chain, response writer, JSON serialisation and redirect sending
  are framework plumbing; the filter's outcome is a value (continue with or without identity, respond, or abort).
- AuthFilter.Filter: a member built from token claims without a string username makes `member.username!!`
  throw a `NullPointerException`; it is modelled as `Abort`, not as a 401.
- Rq.GetHeader: header names are matched exactly, while servlet containers match them case-insensitively.
- Text.ParseInt: only ASCII digits are accepted; the JVM also accepts other Unicode decimal digits.
- Text.AsciiUpper: only ASCII letters are upper-cased; Kotlin's `uppercase()` is Unicode-aware.
- OAuth2.LoadUser: stops at the join request; `modifyOrJoin` and the `SecurityUser` built from its result are persistence.
- OAuth2.ExtractRedirectUrl: base64url and UTF-8 decoding are an input; the cookies set and the redirect sent by the success handler are plumbing.
- The post endpoints take the actor as an argument: the `IllegalStateException` that `rq.getActor()` throws for an anonymous request, before any 404 or 403, is modelled only by Rq.GetActor.
- `PostService` is not part of this model: `findById` is a map lookup, `write` is assumed to store a new post by the actor with the given title and content and no comments, `modify` to apply `Post.modify`, `delete` to remove the post.
- PostController.Write: the new post's id is an input (database-assigned), and the `published`/`listed` flags passed to the post service are not modelled.
- PostController.GetItems: returns the posts rather than `PostDto` copies; the DTO is a field copy.
- PostController.GetItem: returns the stored post rather than a `PostWithContentDto`; the DTO is a field copy.
- PostController.Write: the envelope carries the stored post rather than a `PostDto`; the DTO is a field copy.
- The validation failure is reported as `400-1`; the global exception handler that produces it is not part of this model.
- Members.NewMember: the random UUID API key is an input.
- `encodedApiKey`, `decodeApiKey`, `generateEncodedApiKey`, `getUsernameOrThrow`, `getNameOrThrow` use foreign base64 and helper code.
- `createDate`/`modifyDate` timestamps, and the `LocalDateTime.now()` fallbacks of the DTO, are left out.
- `RsData.toString`, used only for logging, is left out.
- AuthFilter.Filter: the debug logging of the request URI and of the raw API key and access token (`CustomAuthenticationFilter.kt` lines 39 and 68-69) has no effect on the outcome and is left out.
- OAuth2.ExtractUserInfo: the principal name is an input. Spring derives it from a provider attribute (such as Google's `sub` or Kakao's `id`), so in the running program changing that attribute also changes the user id; ExtractUserInfoReadsOnlyNamedAttributes holds only with the principal name held fixed.
- `PostComment` is not part of this model beyond id, author, owning post id and content; its equality is assumed to be the `BaseEntity` one. Comment ownership checks are left out.
- The QueryDSL post repository, search keyword enums and `PostDto` are outside the modelled core.
