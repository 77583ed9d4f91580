# ForumFuncionario API core in Dafny

This is a functional model of the employee forum API's authentication and posting core. It covers:

- **AuthService.** Sign-up against the payroll table (Protheus), sign-in with the JWT claim list and expiry, the role grant, the profile update, the lookup by id, and the forgotten-password and password-reset pair.
- **AuthController.** The registration-status check (`VerificarCadastro`), the client-IP fallback, and how the sign-up, sign-in, admin-grant and user-lookup endpoints map the service's results and exceptions to HTTP responses.
- **PostService.CreatePostAsync.** Category validation and construction of the new post.
- **PostController.** Model-state validation, the exception-to-status mapping, and the not-found rule and single-page metadata of the list endpoints.
- **BaseController.** The response envelopes: the paged and single-object `CreateResponse` with their HATEOAS links, and the `Handle*` error bodies.
- **ResponseCommon.** The `Success` and `Failure` factories.

Stores and effects are modelled as values:

- The payroll table is a map from username to `UserProtheus`.
- The local accounts are a sequence of `UserApp`. Lookups return the first matching row, as a query does.
- Each account's roles are a map from account id to role list.

Anything the code delegates to a library or to I/O becomes a parameter of the operation:

- the identity library: `create`, `checkPassword`, `addToRole`, `resetToken` and `resetPassword`;
- the URL encoder and the mailer;
- the post repository;
- `Url.Action`: a self URL plus a page-URL function;
- fresh values (security stamp, new id, token id) and the clock (`now`, in seconds).

Exceptions are the `Exn` datatype (`ArgumentException`, `UnauthorizedAccessException`, any other `Exception`) carried in a `Result`.

Files, one module each: `wrappers.dfy`, `text.dfy`, `response_common.dfy`, `base_controller.dfy`, `categoria.dfy`, `identity.dfy`, `auth_service.dfy`, `auth_controller.dfy`, `post_service.dfy`, `post_controller.dfy`.

## Model

| member | source | states |
|---|---|---|
| ResponseCommon.Success | src/ForumFuncionario.Api/Model/Response/ResponseCommon.cs:31-34 | status 200, IsSuccess set, no error, Data is the argument, the message is kept |
| ResponseCommon.Failure | src/ForumFuncionario.Api/Model/Response/ResponseCommon.cs:36-39 | IsSuccess false and Data the default (none); the given status, message and error are kept unchanged |
| ResponseCommon.SuccessDefaultMessage | src/ForumFuncionario.Api/Model/Response/ResponseCommon.cs:31 | without a message, Success says "Success" |
| ResponseCommon.FailureDefaults | src/ForumFuncionario.Api/Model/Response/ResponseCommon.cs:36-39 | without a status, Failure reports 500 and no error detail |
| BaseController.CreatePagedResponse | src/ForumFuncionario.Api/Controllers/BaseController.cs:23-59 | 200 with data and meta unchanged; at most three links in the order self, next, previous; "self" iff the self URL is non-empty; "next" iff CurrentPage < TotalPages and the URL for (CurrentPage+1, ItemsPerPage) is non-empty; "previous" iff CurrentPage > 1 and the URL for (CurrentPage-1, ItemsPerPage) is non-empty; every link's href is the URL for its rel, with verb GET |
| BaseController.SinglePageHasOnlySelf | src/ForumFuncionario.Api/Controllers/BaseController.cs:33-49 | on page 1 of 1 neither "next" nor "previous" appears |
| BaseController.MiddlePageHasThreeLinks | src/ForumFuncionario.Api/Controllers/BaseController.cs:27-49 | on a middle page with every URL available, all three links appear, in order |
| BaseController.CreateResponse | src/ForumFuncionario.Api/Controllers/BaseController.cs:69-86 | 200 with the data, no metadata, and only a "self" link, present iff the URL is non-empty |
| BaseController.HandleNotFound | src/ForumFuncionario.Api/Controllers/BaseController.cs:94-98 | a 404 error body with the message, no data and no links |
| BaseController.HandleBadRequestModel | src/ForumFuncionario.Api/Controllers/BaseController.cs:105-114 | 400 with the generic invalid-request message and every model-state message as details |
| BaseController.HandleBadRequest | src/ForumFuncionario.Api/Controllers/BaseController.cs:121-129 | 400 with the generic message and Details = [errorMessage] |
| BaseController.BadRequestIsSingleModelError | src/ForumFuncionario.Api/Controllers/BaseController.cs:105-129 | the string bad request equals the model-state bad request with that one message |
| BaseController.HandleServerError | src/ForumFuncionario.Api/Controllers/BaseController.cs:138-153 | a 500 error body with the message |
| BaseController.HandleUnauthorized | src/ForumFuncionario.Api/Controllers/BaseController.cs:160-167 | a 401 error body with the message |
| Categoria.TryParse | src/ForumFuncionario.Api/Service/PostService.cs:31 | a parsed category is one whose name equals the string ignoring case; none iff no category's name does |
| Categoria.TryParseExact | src/ForumFuncionario.Api/Model/Enum/CategoriaEnum.cs:6-14 | parsing yields c iff the string names c ignoring case, in both directions |
| Categoria.TryParseName | src/ForumFuncionario.Api/Model/Enum/CategoriaEnum.cs:8-13 | each category's own name parses back to it |
| Categoria.NamesDistinctIgnoringCase | src/ForumFuncionario.Api/Model/Enum/CategoriaEnum.cs:8-13 | no two of the six names are equal ignoring case, so a parse is never ambiguous |
| Categoria.TryParseIgnoresCase | src/ForumFuncionario.Api/Service/PostService.cs:31 | strings equal ignoring case parse alike |
| Categoria.TryParseRhAnyCase | src/ForumFuncionario.Api/Service/PostService.cs:31 | "rh" and "RH" both parse as Rh |
| Categoria.TryParseRejectsByLength | src/ForumFuncionario.Api/Service/PostService.cs:31-34 | a string shorter than 2 or longer than 14 characters names no category |
| Identity.FindProtheus | src/ForumFuncionario.Api/Repository/UserProtheusRepository.cs:14-27 | a payroll row is found iff the user code is in the table, and it is that code's row |
| Identity.FindByName | src/ForumFuncionario.Api/Service/AuthService.cs:285 | an account is found iff one has that user name, and the one found has it |
| Identity.FindById | src/ForumFuncionario.Api/Service/AuthService.cs:101-103 | an account is found iff one has that id, and the one found has it |
| Identity.FindByNameUnique | src/ForumFuncionario.Api/Service/AuthService.cs:190-194 | with unique names, the lookup returns the account with that name |
| Identity.FindByNameAppend | src/ForumFuncionario.Api/Service/AuthService.cs:197-206 | after appending an account under a new name, that name finds it and every other name finds what it found before |
| Text.ParseIntToString | src/ForumFuncionario.Api/Service/AuthService.cs:251 | the id's decimal string parses back to the id, so the lookup by `userId.ToString()` finds the account with that id |
| AuthService.CreateFailure | src/ForumFuncionario.Api/Service/AuthService.cs:208-218 | a rejected create raises an ArgumentException whose message is the first error's description, or "Falha no cadastro do usuário." when the library gives none |
| AuthService.NewAccount | src/ForumFuncionario.Api/Service/AuthService.cs:197-206 | UserName = RaNome = the requested name; the payroll id and e-mail are copied from the payroll row |
| AuthService.SignUp | src/ForumFuncionario.Api/Service/AuthService.cs:178-227 | no payroll row gives "Usuário não possui cadastro…", checked before the duplicate test even when a local account exists; a taken name gives "Nome de usuário já existe."; a rejected create raises its first error or the generic failure; every failure leaves the stores unchanged; success iff both checks pass and the create succeeds, then returns true with exactly the new account appended |
| AuthService.SignUpPreservesUniqueNames | src/ForumFuncionario.Api/Service/AuthService.cs:190-206 | sign-up keeps user names unique |
| AuthService.SignUpPreservesUniqueIds | src/ForumFuncionario.Api/Service/AuthService.cs:197-206 | sign-up keeps ids unique when the store hands out an unused id |
| AuthService.SignUpThenFindAndRepeat | src/ForumFuncionario.Api/Service/AuthService.cs:190-206 | after a successful sign-up the name finds the new account, and signing up the same name again fails as a duplicate with nothing changed |
| AuthService.SignUpIgnoresConfirmPassword | src/ForumFuncionario.Api/Service/AuthService.cs:178-220 | the confirmation field never affects the outcome |
| AuthService.SignIn | src/ForumFuncionario.Api/Service/AuthService.cs:281-321 | an unknown name gives "User not found."; a failed password check gives "Invalid password."; a token iff both pass; it carries the configured issuer, audience and key, the claim list of that account and its roles, and an expiry of issue time + 3 hours that is also the reported expiry |
| AuthService.AuthClaims | src/ForumFuncionario.Api/Service/AuthService.cs:292-301 | five claims typed Name, NameIdentifier, Email, Jti and client_ip, then a Role claim for each role, in the role list's order; length 5 + the number of roles |
| AuthService.AuthClaimsShape | src/ForumFuncionario.Api/Service/AuthService.cs:290-301 | claims Name, NameIdentifier, Email, Jti, client_ip, then one Role claim per role in order; length 5 + roles; NameIdentifier parses back to the id; the Role claims read back as the role list |
| AuthService.RoleValuesOfRoleClaims | src/ForumFuncionario.Api/Service/AuthService.cs:301 | the Role claims built from a role list read back as exactly that list |
| AuthService.SignInExpiry | src/ForumFuncionario.Api/Service/AuthService.cs:304-314 | token expiry = returned expiry = now + 3 × 3600 seconds |
| AuthService.FindByIdString | src/ForumFuncionario.Api/Service/AuthService.cs:251 | an account is found only for a string that parses as an integer, and then it is a stored account with that id |
| AuthService.FindByIdStringOfId | src/ForumFuncionario.Api/Service/AuthService.cs:251 | looking up the decimal string of an id finds the same account as looking up the id itself |
| AuthService.AddUserToRole | src/ForumFuncionario.Api/Service/AuthService.cs:247-271 | an unknown id fails with "User not found." and changes nothing; an exception from the library propagates and changes nothing; success iff the id is known and the library does not throw, and then only that account's roles change, to the list the library left, while accounts and payroll stay as they were |
| AuthService.RefusedGrantReportsSuccess | src/ForumFuncionario.Api/Service/AuthService.cs:252 | the library's IdentityResult is discarded: a grant the library refuses still reports success |
| AuthService.AddUserToAdminRole | src/ForumFuncionario.Api/Service/AuthService.cs:233-245 | the grant with role "Admin", with the same error cases, the same success condition and the same frame |
| AuthService.GrantedRoleReachesToken | src/ForumFuncionario.Api/Service/AuthService.cs:247-301 | once the role is granted, a later sign-in of that account lists it and carries a Role claim for it |
| AuthService.GetUserById | src/ForumFuncionario.Api/Service/AuthService.cs:98-110 | the account with that id, or "User does not exist." iff there is none |
| AuthService.UpdateUser | src/ForumFuncionario.Api/Service/AuthService.cs:137-151 | an unknown id fails with "User not found." and changes nothing; otherwise the stored row with that id takes the new e-mail and user name, every other row is untouched, and the repository's count is returned |
| AuthService.UpdateUserKeepsOtherFields | src/ForumFuncionario.Api/Service/AuthService.cs:141-144 | id, RaNome, payroll id, stamp, discriminator and photo of the stored row survive an update, whatever the caller's record says |
| AuthService.UpdateUserPreservesUniqueIds | src/ForumFuncionario.Api/Service/AuthService.cs:141-144 | an update never changes an id, so ids stay unique |
| AuthService.UpdateUserMayDuplicateName | src/ForumFuncionario.Api/Service/AuthService.cs:141-144 | concrete case: accounts "ana" and "bia", with "bia" renamed to "ana", succeed and leave two accounts named "ana" |
| AuthService.UpdateUserChecked | src/ForumFuncionario.Api/Service/AuthService.cs:141-144 | the update with sign-up's duplicate check (190-194): a name held by another account is rejected with "Nome de usuário já existe." and nothing changes; otherwise it is the update as written |
| AuthService.UpdateUserCheckedPreservesUniqueNames | src/ForumFuncionario.Api/Service/AuthService.cs:141-144 | the checked update keeps user names unique |
| AuthService.ResetLink | src/ForumFuncionario.Api/Service/AuthService.cs:346 | the link is the frontend URL, "/reset-password?token=", the encoded token, "&username=" and the user name, in that order |
| AuthService.EsqueciSenha | src/ForumFuncionario.Api/Service/AuthService.cs:328-365 | an unknown name fails with "Usuário não encontrado." and sends nothing; otherwise the reset link goes to the account's e-mail, and a refused send raises "Falha ao enviar o email de recuperação." |
| AuthService.EsqueciSenhaUnknownReachesNothing | src/ForumFuncionario.Api/Service/AuthService.cs:333-337 | for an unknown name the token generator, encoder and mailer make no difference: none is reached |
| AuthService.ResetLinkNamesAccount | src/ForumFuncionario.Api/Service/AuthService.cs:340-346 | the mailed link ends with "&username=" and the found account's stored user name, which under the exact lookup is the name asked for |
| AuthService.RedefinirSenha | src/ForumFuncionario.Api/Service/AuthService.cs:374-406 | an unknown name fails; success iff the library's reset succeeds; otherwise the message is the fixed prefix and every error joined by ", " |
| AuthService.ResetFailureMessageCarriesErrors | src/ForumFuncionario.Api/Service/AuthService.cs:391-396 | the failure message starts with the prefix and the first error, and ends with the last error |
| AuthController.Classify | src/ForumFuncionario.Api/Controllers/AuthController.cs:31-62 | USUARIO_NAO_ENCONTRADO iff the name has no payroll row; USUARIO_NAO_REGISTRADO iff it has a row but no account; USUARIO_REGISTRADO iff it has both |
| AuthController.VerificarCadastro | src/ForumFuncionario.Api/Controllers/AuthController.cs:26-70 | always 200; no payroll row gives USUARIO_NAO_ENCONTRADO; payroll row without an account gives USUARIO_NAO_REGISTRADO; both give USUARIO_REGISTRADO; Login is true iff both are present |
| AuthController.StatusNamesDistinct | src/ForumFuncionario.Api/Controllers/AuthController.cs:33-62 | the three status strings are pairwise different, so each name maps to exactly one status |
| AuthController.VerificarCadastroSkipsLocalStore | src/ForumFuncionario.Api/Controllers/AuthController.cs:31-41 | without a payroll row the local accounts make no difference |
| AuthController.ClassifyPredictsSignUp | src/ForumFuncionario.Api/Controllers/AuthController.cs:31-62 | not found ⇒ sign-up fails on the payroll check; registered ⇒ it fails as a duplicate; a successful sign-up starts unregistered and ends registered |
| AuthController.ClientIp | src/ForumFuncionario.Api/Controllers/AuthController.cs:118 | the remote address, or "IP não disponível" when there is none |
| AuthController.SignUpAction | src/ForumFuncionario.Api/Controllers/AuthController.cs:81-102 | 200 with true iff the service succeeds; any exception is 500 with the fixed message and the stores unchanged |
| AuthController.SignUpRejectionsAreServerErrors | src/ForumFuncionario.Api/Controllers/AuthController.cs:86-101 | a missing payroll row or a duplicate name is answered 500, not 400 |
| AuthController.SignInAction | src/ForumFuncionario.Api/Controllers/AuthController.cs:113-137 | only 200 or 500; 200 iff the service issues a token for the client address or its placeholder |
| AuthController.SignInFailuresAreServerErrors | src/ForumFuncionario.Api/Controllers/AuthController.cs:121-136 | an unknown user and a wrong password get the identical 500 response, never 401 or 404 |
| AuthController.SignInWithoutAddress | src/ForumFuncionario.Api/Controllers/AuthController.cs:118-121 | with no remote address the token's client_ip claim is "IP não disponível" |
| AuthController.AddUserToAdminRoleAction | src/ForumFuncionario.Api/Controllers/AuthController.cs:149-163 | the stores are exactly the service's; 200 with true iff the service succeeds, that is iff the id exists and the library does not throw; otherwise 500 with the id in the message and nothing changed |
| AuthController.AdminGrantLibraryFailureIsServerError | src/ForumFuncionario.Api/Controllers/AuthController.cs:158-162 | an exception from the library for a known id (for example a missing "Admin" role) is answered 500, with nothing changed |
| AuthController.RefusedAdminGrantAnswers200 | src/ForumFuncionario.Api/Controllers/AuthController.cs:149-156 | a grant the library refuses is still answered 200 with true, and the account keeps the roles the library left |
| AuthController.GetUserAction | src/ForumFuncionario.Api/Controllers/AuthController.cs:237-258 | 200 with the account iff the id exists; otherwise 500, never 404 |
| PostService.CreatePostAsync | src/ForumFuncionario.Api/Service/PostService.cs:25-48 | an unknown category raises "Categoria '…' is not valid." and reaches no repository; otherwise the post is active with no edit date, created now, with the title, content and tags copied, the parsed category, and the Name claim or "Anonymous" as author; the result is the repository's |
| PostService.CreatePostCategoryIgnoresCase | src/ForumFuncionario.Api/Service/PostService.cs:31-45 | category strings equal ignoring case store the same post |
| PostService.CreatePostRh | src/ForumFuncionario.Api/Service/PostService.cs:31-41 | "rh" and "RH" both store a post in Rh |
| PostService.InvalidCategoryNeverStored | src/ForumFuncionario.Api/Service/PostService.cs:31-34 | for an unknown category the repository makes no difference to the outcome |
| PostController.ControllerUsername | src/ForumFuncionario.Api/Controllers/PostController.cs:36 | the identity's name, or "Anônimo" |
| PostController.CreateErrorResponse | src/ForumFuncionario.Api/Controllers/PostController.cs:52-65 | ArgumentException is 400 with its message as the detail; UnauthorizedAccessException is 401; anything else is 500 |
| PostController.CreatePost | src/ForumFuncionario.Api/Controllers/PostController.cs:29-66 | invalid model state is 400 and the service is not called; an exception goes through the catch mapping; a null post is 500 "Erro ao criar o post."; otherwise 200 with the post; no other status |
| PostController.CreatePostInvalidCategory | src/ForumFuncionario.Api/Controllers/PostController.cs:52-56 | an unknown category ends as a 400 whose only detail is the service's message, with nothing stored |
| PostController.AuthorAndControllerName | src/ForumFuncionario.Api/Controllers/PostController.cs:36-41 | whenever a post is stored, its author equals the controller's user name iff the request carries a name |
| PostController.ListResponse | src/ForumFuncionario.Api/Controllers/PostController.cs:89-103 | a null or empty list is 404; otherwise 200 with the list, metadata (n, n, page 1 of 1) and only a "self" link |
| PostController.GetPostsByCategoria | src/ForumFuncionario.Api/Controllers/PostController.cs:81-115 | the list rule for a reply; ArgumentException is 400 with its message; any other exception is 500 |
| PostController.GetLatestPostsByCategoria | src/ForumFuncionario.Api/Controllers/PostController.cs:129-158 | the list rule for a reply; every exception is 500 |
| PostController.PostResponsesConsistent | src/ForumFuncionario.Api/Controllers/PostController.cs:29-158 | every post endpoint response is 200 with data and no error, or an error whose code is the status |

## Left out

- Password hashing and checking, reset-token generation and validation, and role storage are done by the ASP.NET Identity library. They are parameters here. No claim is made about a role already held, or about role-grant idempotence.
- The stored password is not a field. After a successful reset the model says only that the library accepted it.
- JWT serialisation and HMAC-SHA256 signing are not modelled. The token is a record of its issuer, audience, expiry, claims and key.
- GUID generation for the security stamp and the token id, and URL encoding, are parameters.
- The SQL queries, the EF context and the repositories are not modelled. The stores are values, and the post repository is a function parameter.
- The mail transport, program start-up, dependency injection, CORS, logging, migrations and the async and rethrow wrappers are not modelled; they are I/O or framework wiring.
- The employee and extension-line controllers and services are not modelled. Their only logic is the empty-list → 404 and single-page pattern, which `PostController.ListResponse` already covers.
- The list services behind the two post list endpoints are not modelled. Their reply is an input.
- The commented-out reflection code in `AddUserToRoleAsync` is not modelled.
- AuthService.AddUserToRole: the `UpdateAsync(user)` call after the grant (AuthService.cs:264) is not modelled. Its result is discarded, and none of the modelled fields changes. In the library it also re-validates the account and rewrites its normalised name and e-mail and its concurrency stamp, which are not modelled. Whether the "Admin" role exists in the role table is the library's concern: the `addToRole` parameter answers Err when it throws.
- AuthController.SignUpAction, AuthController.SignInAction, AuthController.GetUserAction, AuthService.EsqueciSenha and AuthService.RedefinirSenha: their "200 iff" and "Ok iff" contracts assume the store does not fail. Infrastructure exceptions are not modelled: a lost database connection, for instance, raised from `CreateAsync`, `CheckPasswordAsync`, `GetRolesAsync`, `GeneratePasswordResetTokenAsync` or `UpdateAsync`. In the source each of these becomes a 500. The model's library parameters answer only with their documented results.
- Identity.FindProtheus: the payroll table is a map with one row per user code, as the query's `WHERE D_E_L_E_T_ <> '*'` filter leaves it. `QuerySingleOrDefaultAsync` throws when two live rows share a code, and the map cannot express that case.
- The shapes of `BaseResponse`, `ErrorResponse`, `MetaData` and `LinkInfo` are not part of this model's sources. The envelopes with empty links and unset details are an assumption about their defaults.
- Categoria.TryParse: only case-insensitive matching of the six names is modelled, with ASCII upper-casing. .NET `Enum.TryParse` compares names ordinally, ignoring case with invariant-culture casing; the model leaves out non-ASCII invariant case mapping, and also the numeric and comma-separated forms and surrounding whitespace that `Enum.TryParse` accepts.
- Identity.FindByName: the identity library compares normalised (upper-case) user names. The model compares exact names. `FindByNameAsync` searches the stored `NormalizedUserName`, and `UpdateUser` (AuthService.cs:141-144) changes `UserName` through a generic repository update that leaves `NormalizedUserName` stale. After a rename the library still finds the account by its old name, while the model finds it by the new one. This lasts only until the next identity-library update of that account, such as a role grant (`AddToRoleAsync` and `UpdateAsync` rewrite the normalised name).
- AuthService.ResetLinkNamesAccount: the library finds the account by its normalised name, so a request for "ANA" finds a stored account "ana" and the link carries "&username=ana". The clause saying the link ends with the name asked for holds only under the exact lookup of `Identity.FindByName`. The clause naming the found account's stored user name is the one the source promises.
- Times are whole seconds with unbounded range, so `DateTime` overflow is not modelled. Ids and counts are unbounded integers, so 32-bit overflow is not modelled either.
- AuthController.AddUserToAdminRoleAction, AuthController.GetUserAction, PostController.CreatePost, PostController.GetPostsByCategoria, PostController.GetLatestPostsByCategoria, PostController.PostResponsesConsistent: the contracts describe authorized calls only. The class-level `[Authorize]` (AuthController.cs:10) guards the user lookup, `[Authorize(Roles = "Admin")]` (AuthController.cs:145) guards the admin grant, and `[Authorize]` (PostController.cs:24, 77, 125) guards the three post endpoints. An unauthenticated caller gets 401, and a caller without the Admin role gets 403 at the grant, both answered by the framework without a response envelope and before the action runs. The caller is not part of the model, so these answers are not modelled.
- AuthController.SignUpAction, AuthController.SignInAction, PostController.CreatePost: the contracts describe the action bodies. Both controllers carry `[ApiController]` (AuthController.cs:12, PostController.cs:10), so ASP.NET Core validates the request before the action runs. For a missing or blank `[Required]` field, such as an empty user name or password, it answers its own 400 validation problem and the action never runs. That automatic 400 is not modelled. For such input the model's sign-up and sign-in answer 500, and the model's `CreatePost` reaches its model-state branch (PostController.cs:31-34), which the framework's filter pre-empts under default options.
- AuthService.NewAccount: the security stamp is the fresh value the sign-up code writes (AuthService.cs:199). The identity library's `CreateAsync` assigns a new stamp of its own when it stores the account, and that is not modelled, so the stored stamp is not promised to be the one the code generated.
- Null strings in requests and missing configuration values (frontend URL, JWT settings) are not modelled.
- `ListUsers`, `GetUserDto`, `DeleteUser`, `GetCurrentUser` and their endpoints are not modelled. They are plain lookups outside this core.
- AuthController.Classify, AuthController.VerificarCadastro, AuthController.ClassifyPredictsSignUp: the registration check reads the local account through `GetUserAppByUsername` (AuthService.cs:62-73), which calls `userRepository.GetUserByUsernameAsync`. The `IUserRepository` interface (Repository/Interface/IUserRepository.cs:6-8) declares no such method. The only method of that name, `AuthRepository.GetUserByUsernameAsync` (AuthRepository.cs:11-16), queries the payroll table and never supplies its `@Password` parameter. Sign-up instead asks the identity library (`FindByNameAsync`). The model uses the one lookup `Identity.FindByName` for both, and `ClassifyPredictsSignUp` holds only because of that. With two different lookups, for instance after a rename that leaves the normalised name stale, "registered" would no longer predict a duplicate at sign-up.
- AuthController.VerificarCadastro: the catch branch is not modelled. It maps an infrastructure exception from the payroll or account query to 500, and the model's stores do not fail.
- AuthController.SignInAction: the 404 branch for a null service reply is not modelled, because the service throws instead of returning null and so that branch cannot be reached.
- The source files disagree with each other on some constructor and interface signatures. `SsoResponse` is built with five arguments, but its constructor takes fewer. `PostService` declares a second `IPostService`. The controller passes a request and a user name, while the service body takes the fields and reads the author from the Name claim. This model follows the method bodies as written. As a result, the post's author falls back to "Anonymous", while the controller's own "Anônimo" name is only logged (see `PostController.AuthorAndControllerName`).
- Sign-up never compares `ConfirmPassword` with `Password` (see `AuthService.SignUpIgnoresConfirmPassword`).

## Findings

| source | as written | input that shows it | evidently intended | confidence | as-written member | corrected member |
|---|---|---|---|---|---|---|
| src/ForumFuncionario.Api/Service/AuthService.cs:141-144 | the update renames an account without checking whether another account holds the new name | accounts "ana" (id 1) and "bia" (id 2); update id 2 with user name "ana" | reject a name another account holds, as sign-up does (AuthService.cs:190-194) | medium, not executed | AuthService.UpdateUserMayDuplicateName | AuthService.UpdateUserChecked |
