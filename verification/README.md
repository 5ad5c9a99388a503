# PFN Redesign: authentication session and user service

This project models, in Dafny, the two stateful cores of the Pink Friday
Nails storefront. It proves properties of each.

- **Browser client (TypeScript).**
  - The credential store: three `localStorage` slots, `pfn_access_token`, `pfn_refresh_token` and `pfn_user`.
  - The identity client's login, register, logout and refresh mutations.
  - The HTTP gateway. It attaches a bearer token (section 2.1 of RFC 6750). It answers a 401 (section 15.5.2 of RFC 9110) with at most one refresh-and-retry per request.
  - The session provider: `currentUser`, the start-up `loading` flag, `error`, and the values exposed through `useAuth`.
  - The route table, with its guard in front of `/dashboard`.
- **Spring server (Java).**
  - The `User` entity with Lombok's setters, `equals` and `hashCode`.
  - The `UserResponse` projection.
  - The user service over a repository. The repository is a map from id to row. Its invariants are: unique and non-null email, non-null password hash, ids below the identity counter.
  - The mapper's null-skipping patch and its page conversion.
  - The user controller's parameter handling and 200/404 branching.
  - The `ApiError` body.
  - The global exception handler's exception-to-status table. The statuses are 400, 401, 404 and 409 (RFC 9110 sections 15.5.1, 15.5.2, 15.5.5 and 15.5.10) and 500 (section 15.6.1).

Objects the source updates in place are classes:

- client: `CredentialStore`, `RequestConfig`, `ApiClient`, `AuthProvider`;
- server: `User`, `UserResponse`, `ApiError`, `UserServiceImpl`, `UserController`.

Their methods state the whole new state. Pure logic is functions and lemmas.

Remote calls and foreign code are function-typed parameters:

- the server's answers, the refresh endpoint, JSON parse/stringify;
- the password encoder, the JWT generator and the authentication manager's verdict;
- the database's constraint messages and the paged `findAll`.

A failing storage write is described by how many writes the medium accepts.

Files:

- client: `wrappers.dfy`, `client_types.dfy`, `token_storage.dfy`, `auth_service.dfy`, `api_client.dfy`, `auth_context.dfy`, `routes.dfy`;
- server: `java_lang.dfy`, `user_model.dfy`, `user_response.dfy`, `exceptions.dfy`, `api_error.dfy`, `exception_handler.dfy`, `user_mapper.dfy`, `user_service.dfy`, `user_controller.dfy`.

## Model

| member | source | states |
|---|---|---|
| TokenStorage.Cleared | client/src/services/tokenStorage.ts:44-48 | clearing removes exactly the three `pfn_` keys and keeps every other key with its value |
| TokenStorage.AllWritesStored | client/src/services/tokenStorage.ts:14-31 | after the three writes the access and refresh getters return the new tokens, the user slot holds the serialised user, `getUser` returns it, and keys outside the three are untouched |
| TokenStorage.PartialWritesKept | client/src/services/tokenStorage.ts:15-22 | a write that fails after n successful writes leaves the first n slots written and the rest as before, with no rollback |
| TokenStorage.ClearedProperties | client/src/services/tokenStorage.ts:25-52 | after clearing, all three getters return null and `hasValidTokens` is false; clearing twice equals clearing once |
| TokenStorage.ClearAfterWrites | client/src/services/tokenStorage.ts:14-48 | clearing after any prefix of the three writes gives the same storage as clearing before them |
| TokenStorage.CredentialStore.SetTokens | client/src/services/tokenStorage.ts:14-23 | the access, refresh and user slots are written in that order, as far as the medium accepts; success exactly when all three are written; a failure is "Failed to store authentication data"; after success the getters return what was stored |
| TokenStorage.CredentialStore.ClearTokens | client/src/services/tokenStorage.ts:44-48 | the storage becomes its cleared form, and the three getters return null |
| TokenStorage.CredentialStore.GetAccessToken | client/src/services/tokenStorage.ts:25-27 | `localStorage.getItem` of `pfn_access_token`: present exactly when the key is, with its text |
| TokenStorage.CredentialStore.GetRefreshToken | client/src/services/tokenStorage.ts:29-31 | `localStorage.getItem` of `pfn_refresh_token`: present exactly when the key is, with its text |
| TokenStorage.CredentialStore.GetUser | client/src/services/tokenStorage.ts:33-42 | null for an absent or empty `pfn_user` slot; otherwise what `JSON.parse` makes of the text, with unparseable text giving null; under a faithful codec the stored text `"null"` gives null |
| TokenStorage.CredentialStore.HasValidTokens | client/src/services/tokenStorage.ts:50-52 | true exactly when both token slots are present and non-empty |
| AuthService.Login | client/src/services/authService.ts:18-29 | the credentials are posted through the instance; the result, storage and location are the instance's outcome followed, on success, by `setTokens` of the pair and user; the login resolves with the user exactly when all three writes succeed, and the getters then return what was stored; an answer other than a 401 never redirects, and a refused one rejects with its axios error and leaves storage untouched; in every case no key outside the three slots changes, and a redirect comes only with a rejection and cleared tokens |
| AuthService.Register | client/src/services/authService.ts:35-38 | resolves with the instance's outcome for the register post and stores nothing itself: an answer other than a 401 settles it with its body or axios error, storage and location untouched; after a 401 only the instance's refresh, or its clear-and-redirect on a rejection, can change the three slots |
| AuthService.Logout | client/src/services/authService.ts:44-47 | clears the three slots only after the logout post succeeds, from the storage before the post; a rejected post rejects the logout with its error and leaves the storage the instance left, which is the original one unless the first answer was a 401 |
| AuthService.RefreshToken | client/src/services/authService.ts:53-58 | resolves with the instance's outcome for the refresh post and does not store the pair itself: an answer other than a 401 settles it with storage and location untouched; after a 401 only the instance's own refresh or clear-and-redirect changes the three slots |
| AuthService.LoginOutcome | client/src/services/authService.ts:18-29 | what the login promise settles to: the post's rejection as is; after a resolved post, the `setTokens` failure "Failed to store authentication data" unless all three writes are accepted, else the response's user |
| AuthService.LoginSlots | client/src/services/authService.ts:18-29 | the storage after the login: what the post left if it was rejected, else that storage with as many of the three `setTokens` writes as the medium accepts, in order |
| ApiClient.WithToken | client/src/services/apiClient.ts:31-37 | a truthy token sets `Authorization: Bearer <token>`; otherwise the headers are unchanged; other headers are never changed |
| ApiClient.RejectionOf | client/src/services/apiClient.ts:46-50 | an answer that is not 2xx rejects with an error whose `response.status` is the answer's status and whose payload is the answer's body; no answer rejects with a network error that has no status |
| ApiClient.Exchanged | client/src/services/apiClient.ts:30-85 | one call of the instance: the request interceptor sets the stored bearer token; a 2xx answer resolves; any other answer, or a 401 of a retried request, rejects with its axios error; a first 401 refreshes with the stored refresh token, then either stores the pair (keeping `getUser()`) and re-sends once with the new bearer, or clears the tokens and sends the browser to `/login`. Its contract: a resolved call never redirects, and a redirect comes only on a first attempt, with a rejection and the tokens cleared |
| ApiClient.GatewayEffect | client/src/services/apiClient.ts:44-85 | the bound every operation through the instance keeps: no key outside the three slots changes, and the location changes only to `/login`, by a rejected call that has cleared the tokens |
| ApiClient.RequestConfig.constructor | client/src/services/apiClient.ts:47-51 | a new request carries its post and headers, with `_retry` unset |
| ApiClient.ApiClient.constructor | client/src/services/apiClient.ts:4-19 | the base URL is the configured one if truthy, else `http://localhost:8080`; JSON content type; no redirect yet |
| ApiClient.ApiClient.OnRequest | client/src/services/apiClient.ts:31-37 | the request's headers become `WithToken` of the access token read at that moment |
| ApiClient.ApiClient.OnResponseError | client/src/services/apiClient.ts:46-85 | anything but a 401 of a request not yet retried is rejected unchanged and changes nothing; otherwise the request is marked retried; a missing refresh token, failed refresh or failed store clears the tokens, records `/login` as the location and rejects with that failure; a stored pair keeps the user, sets the new bearer header and re-issues the request |
| ApiClient.ApiClient.Execute | client/src/services/apiClient.ts:44-85 | the result, storage and location equal `Exchanged` from the state before the call; a request reaches the server at most twice, and only once if already retried; the first send carries the stored token; a second send follows only a first 401 and carries the refreshed access token; the request ends marked retried exactly when it was, or its first answer was a 401 |
| ApiClient.ApiClient.SendPost | client/src/services/apiClient.ts:44-85 | `post` on the instance settles as `Exchanged` from the current state with the default headers; an answer other than a 401 settles it as is, storage and location untouched; otherwise only the three slots change, and a redirect to `/login` comes only with a rejection and cleared tokens |
| ApiClient.ExchangeWithoutUnauthorized | client/src/services/apiClient.ts:45-50 | a 2xx answer resolves with its body, and any other answer that is not the first 401 rejects with its axios error; neither refreshes, clears nor redirects |
| ApiClient.UnauthorizedWithoutRefreshToken | client/src/services/apiClient.ts:50-57 | a first 401 with no refresh token stored clears the tokens, redirects to `/login` and rejects with "No refresh token available" |
| ApiClient.RefreshedRetry | client/src/services/apiClient.ts:59-75 | a first 401 whose refresh is stored re-sends the request once, bearing the new access token; the second answer settles the call, even another 401, with the refreshed tokens kept and no redirect |
| ApiClient.ExchangeEffect | client/src/services/apiClient.ts:44-85 | every call of the instance changes no key outside the three slots, and redirects to `/login` only when it rejects with the tokens cleared; a resolved call never redirects |
| ApiClient.RefreshKeepsUser | client/src/services/apiClient.ts:64-71 | storing a refreshed pair together with `getUser()` keeps `getUser` unchanged and makes the getters return the new tokens |
| ApiClient.Singleton.GetInstance | client/src/services/apiClient.ts:21-26 | creates the gateway on the first call, and returns that same instance on every later call |
| AuthContext.FirstNonEmpty | client/src/components/Context/AuthContext/AuthContext.tsx:102 | a chain of `\|\|` over strings gives the first non-empty string, or `""` when all are empty |
| AuthContext.ExposedLoading | client/src/components/Context/AuthContext/AuthContext.tsx:101 | the exposed `loading` is the start-up flag or any of the login, register and logout mutations pending |
| AuthContext.ExposedError | client/src/components/Context/AuthContext/AuthContext.tsx:102 | the exposed error is the local error if set, else the login, register, then logout mutation's message, else `""` |
| AuthContext.UseAuth | client/src/components/Context/AuthContext/AuthContext.tsx:22-28 | inside a provider it returns the provider's value; outside it fails with "useAuth must be used within an AuthProvider" |
| AuthContext.AuthProvider.constructor | client/src/components/Context/AuthContext/AuthContext.tsx:31-39 | the provider starts with no user, `loading` true, empty error and idle mutations |
| AuthContext.AuthProvider.InitializeAuth | client/src/components/Context/AuthContext/AuthContext.tsx:42-57 | `loading` ends false on every path, so the exposed `loading` is then true exactly while a mutation is pending; `error` is never set; without a stored user and refresh token nothing else changes; otherwise the refresh post goes through the instance: success restores the stored user with the storage the instance left; failure keeps `currentUser` and clears the slots, and the location is the instance's |
| AuthContext.AuthProvider.Login | client/src/components/Context/AuthContext/AuthContext.tsx:74-85 | the result, storage and location are those of the login mutation through the instance; success sets `currentUser` and leaves `error` empty; failure keeps `currentUser`, records the rejection's `error` text or the fallback (which is then the exposed error), and rethrows the same error |
| AuthContext.AuthProvider.Register | client/src/components/Context/AuthContext/AuthContext.tsx:62-72 | resets `error` and returns `response.user`; never touches `currentUser`; storage and location are the instance's outcome for the post; a failure records the rejection's text or "Registration failed. Please try again." and rethrows |
| AuthContext.AuthProvider.Logout | client/src/components/Context/AuthContext/AuthContext.tsx:87-97 | on success: user forgotten, query cache cleared once, slots cleared, `error` not reset; on failure: user kept, storage as the instance left it, error text or "Logout failed. Please try again." recorded, rethrown |
| AuthContext.LoginErrorShownVerbatim | client/src/components/Context/AuthContext/AuthContext.tsx:80-82 | a login rejection whose payload carries `error: "Invalid credentials"` is exposed as exactly that text |
| AuthContext.WrongPasswordWithoutRefreshToken | client/src/components/Context/AuthContext/AuthContext.tsx:74-85 | a login answered 401 while no refresh token is stored rejects with "No refresh token available", shows the login fallback rather than the server's text, leaves the slots cleared and sends the browser to `/login` |
| Routes.MatchRoute | client/src/utils/routes.tsx:47-60 | no segments match `/`; one segment matches the login, register, dashboard or products route, ignoring ASCII case; two segments match a `length` or `style` category with the second as its type; no other segment list matches |
| Routes.Segments | client/src/utils/routes.tsx:46-61 | the segments a pathname is matched on: none unless it starts with `/` (an empty pathname reads as `/`); trailing empty pieces are dropped and any other empty piece fails the match; every segment returned is non-empty and slash-free |
| Routes.IsAuthPage | client/src/utils/routes.tsx:41 | an exact comparison of the raw pathname with `/login` and `/register` |
| Routes.Content | client/src/utils/routes.tsx:46-61 | the element of the route matching the pathname's segments, or none when no route matches |
| Routes.ProtectedRoute | client/src/utils/routes.tsx:12-24 | a placeholder exactly while loading; a redirect to `/login` exactly when not loading and there is no user; the child exactly when not loading and there is a user |
| Routes.AppRoutes | client/src/utils/routes.tsx:39-64 | `SideNav` is rendered exactly when the raw pathname is not `/login` or `/register`; content exists exactly when the pathname splits into valid segments and some route matches them |
| Routes.OnlyDashboardIsGuarded | client/src/utils/routes.tsx:47-60 | every route except `/dashboard` renders the same whatever the session; the dashboard is shown exactly when not loading with a user |
| Routes.SegmentsOfJoin | client/src/utils/routes.tsx:47-60 | a pathname built from valid segments, followed by any number of slashes, is matched on exactly those segments |
| Routes.EmptySegmentUnmatched | client/src/utils/routes.tsx:47-60 | a doubled slash followed by a further segment matches no route and renders no content, whatever valid segments precede it |
| Routes.SingleSegment | client/src/utils/routes.tsx:47-57 | a pathname of one non-empty, slash-free segment is matched on that segment |
| Routes.TwoSegments | client/src/utils/routes.tsx:58-59 | a pathname of two segments, followed by any number of slashes, is matched on those two segments |
| Routes.SingleSegmentView | client/src/utils/routes.tsx:39-64 | a one-segment pathname naming a route renders that route's element, with `SideNav` exactly when it is not an auth page |
| Routes.LoginPage | client/src/utils/routes.tsx:41-47 | `/login` hides the side navigation and shows the login form |
| Routes.RegisterPage | client/src/utils/routes.tsx:41-48 | `/register` hides the side navigation and shows the registration form |
| Routes.DashboardPage | client/src/utils/routes.tsx:49-56 | `/dashboard` shows the side navigation and the guarded dashboard |
| Routes.ProductsPage | client/src/utils/routes.tsx:57 | `/products` is public |
| Routes.RootPage | client/src/utils/routes.tsx:60 | `/`, and any pathname of slashes only, redirects to `/dashboard` |
| Routes.LengthPathname | client/src/utils/routes.tsx:58 | `/length/<t>`, with or without trailing slashes, matches the length route with `type` bound to `t` and renders the length category page, whose markup does not depend on `t` |
| Routes.StylePathname | client/src/utils/routes.tsx:59 | `/style/<t>`, with or without trailing slashes, matches the style route with `type` bound to `t` and renders the style category page, whose markup does not depend on `t` |
| Routes.TrailingSlashAuthPage | client/src/utils/routes.tsx:41-47 | `/login/` renders the login form with `SideNav` shown, because `isAuthPage` compares the raw pathname |
| Routes.DoubledLeadingSlash | client/src/utils/routes.tsx:47 | `//login` matches no route, and shows `SideNav` |
| Routes.DoubledInteriorSlash | client/src/utils/routes.tsx:58 | `/length//x` matches no route: the `:type` segment cannot be empty |
| Routes.UpperCaseLogin | client/src/utils/routes.tsx:41-47 | `/LOGIN` renders the login form, since literal segments ignore case, with `SideNav` shown, since `isAuthPage` is exact |
| JavaLang.EqualsIgnoreCaseDesc | server/ecommerce/src/main/java/com/pfnredesign/ecommerce/controller/UserController.java:66 | `equalsIgnoreCase("desc")` holds exactly for four-character strings d/D, e/E, s/S/ſ, c/C |
| JavaLang.StringHash | server/ecommerce/src/main/java/com/pfnredesign/ecommerce/model/User.java:12 | `String.hashCode` as Lombok's `hashCode` calls it: `h = 31 * h + c` over the characters from 0, wrapping at 32 bits |
| JavaLang.EqualsIgnoreCase | server/ecommerce/src/main/java/com/pfnredesign/ecommerce/controller/UserController.java:66 | `String.equalsIgnoreCase`: equal lengths, and each pair of characters equal, equal in upper case, or equal in lower case of upper case |
| JavaLang.StringHashCollision | server/ecommerce/src/main/java/com/pfnredesign/ecommerce/model/User.java:12 | `String.hashCode` in 32-bit arithmetic gives "Aa" and "BB" the same hash, 2112 |
| UserModel.User.constructor | server/ecommerce/src/main/java/com/pfnredesign/ecommerce/model/User.java:13-33 | a new user has every field null |
| UserModel.User.SetUserId | server/ecommerce/src/main/java/com/pfnredesign/ecommerce/model/User.java:16 | changes `userId` and nothing else |
| UserModel.User.SetEmail | server/ecommerce/src/main/java/com/pfnredesign/ecommerce/model/User.java:19 | changes `email` and nothing else |
| UserModel.User.SetPasswordHash | server/ecommerce/src/main/java/com/pfnredesign/ecommerce/model/User.java:22 | changes `passwordHash` and nothing else |
| UserModel.User.SetFirstName | server/ecommerce/src/main/java/com/pfnredesign/ecommerce/model/User.java:24 | changes `firstName` and nothing else |
| UserModel.User.SetLastName | server/ecommerce/src/main/java/com/pfnredesign/ecommerce/model/User.java:25 | changes `lastName` and nothing else |
| UserModel.User.SetPhone | server/ecommerce/src/main/java/com/pfnredesign/ecommerce/model/User.java:26 | changes `phone` and nothing else |
| UserModel.User.SetCreatedAt | server/ecommerce/src/main/java/com/pfnredesign/ecommerce/model/User.java:29 | changes `createdAt` and nothing else |
| UserModel.User.SetUpdatedAt | server/ecommerce/src/main/java/com/pfnredesign/ecommerce/model/User.java:32 | changes `updatedAt` and nothing else |
| UserModel.User.Equals | server/ecommerce/src/main/java/com/pfnredesign/ecommerce/model/User.java:12-33 | equal exactly to another `User` whose eight fields are all equal |
| UserModel.RecordHash | server/ecommerce/src/main/java/com/pfnredesign/ecommerce/model/User.java:12-33 | Lombok's `hashCode`: from 1, each field in declaration order folds in as `result * 59 + h`, with 43 for a null field and the field type's own hash otherwise, wrapping at 32 bits |
| UserModel.User.HashCode | server/ecommerce/src/main/java/com/pfnredesign/ecommerce/model/User.java:12 | the entity's Lombok hash code, the `RecordHash` of its current fields |
| UserModel.EqualUsersHashAlike | server/ecommerce/src/main/java/com/pfnredesign/ecommerce/model/User.java:12-33 | equal users have equal Lombok hash codes, and equality is symmetric |
| UserModel.NewRecordHash | server/ecommerce/src/main/java/com/pfnredesign/ecommerce/model/User.java:12-33 | a new user, every field null, has the Lombok hash 0xE1C96F71: 43 folded in eight times with multiplier 59 from 1, wrapping at 32 bits |
| UserModel.UnequalUsersHashAlike | server/ecommerce/src/main/java/com/pfnredesign/ecommerce/model/User.java:12-33 | the converse of equal-implies-same-hash fails: users differing only in an email of "Aa" or "BB" are unequal with equal hash codes |
| UserModel.DifferentIdsNotEqual | server/ecommerce/src/main/java/com/pfnredesign/ecommerce/model/User.java:16 | users whose ids differ are never equal |
| UserModel.EqualsOnlyUsers | server/ecommerce/src/main/java/com/pfnredesign/ecommerce/model/User.java:12 | a user never equals null or an object of another class, and always equals itself |
| UserResponseDto.UserResponse.constructor | server/ecommerce/src/main/java/com/pfnredesign/ecommerce/dto/UserResponse.java:12-13 | all four fields start null |
| UserResponseDto.UserResponse.WithFields | server/ecommerce/src/main/java/com/pfnredesign/ecommerce/dto/UserResponse.java:15-20 | the getters return the four arguments |
| UserResponseDto.UserResponse.SetId | server/ecommerce/src/main/java/com/pfnredesign/ecommerce/dto/UserResponse.java:36-38 | changes `id` and nothing else |
| UserResponseDto.UserResponse.SetEmail | server/ecommerce/src/main/java/com/pfnredesign/ecommerce/dto/UserResponse.java:44-46 | changes `email` and nothing else |
| UserResponseDto.UserResponse.SetFirstName | server/ecommerce/src/main/java/com/pfnredesign/ecommerce/dto/UserResponse.java:52-54 | changes `firstName` and nothing else |
| UserResponseDto.UserResponse.SetLastName | server/ecommerce/src/main/java/com/pfnredesign/ecommerce/dto/UserResponse.java:60-62 | changes `lastName` and nothing else |
| UserResponseDto.FromUser | server/ecommerce/src/main/java/com/pfnredesign/ecommerce/dto/UserResponse.java:23-30 | a fresh response holding the user's projection |
| UserResponseDto.Project | server/ecommerce/src/main/java/com/pfnredesign/ecommerce/dto/UserResponse.java:23-30 | the public projection: `userId` as `id`, with the email and the two names |
| UserResponseDto.ProjectExposesOnlyPublicFields | server/ecommerce/src/main/java/com/pfnredesign/ecommerce/dto/UserResponse.java:7-30 | `userId` becomes `id`; email and names are copied exactly; password hash, phone and timestamps have no influence |
| ApiErrors.ApiError.constructor | server/ecommerce/src/main/java/com/pfnredesign/ecommerce/exception/ApiError.java:30-38 | `statusCode` is the status's value; message and path are stored as given; `errors` is empty |
| ApiErrors.ApiError.AddValidationError | server/ecommerce/src/main/java/com/pfnredesign/ecommerce/exception/ApiError.java:40-42 | appends exactly one entry at the end; everything else is unchanged |
| ApiErrors.ApiError.AddValidationErrors | server/ecommerce/src/main/java/com/pfnredesign/ecommerce/exception/ApiError.java:44-46 | `errors` grows by exactly the number of map entries; the old entries stay as a prefix; the new ones list each map entry once; nothing else changes |
| ApiErrors.ListedEntriesCoverMap | server/ecommerce/src/main/java/com/pfnredesign/ecommerce/exception/ApiError.java:44-46 | a listing of a map's entries contains every entry of the map |
| ApiErrors.DistinctFieldsCount | server/ecommerce/src/main/java/com/pfnredesign/ecommerce/exception/ApiError.java:44-46 | entries with pairwise distinct fields name as many fields as there are entries |
| GlobalExceptionHandler.Handle | server/ecommerce/src/main/java/com/pfnredesign/ecommerce/exception/GlobalExceptionHandler.java:24-113 | not found gives 404, bad request 400, user already exists 409 and invalid credentials 401, each with the exception's message; a constraint violation gives 409 with "Database constraint violation: " and the cause; anything else gives 500 with "An unexpected error occurred: " and the message; the response status equals the body's status, the path is the request URI and `errors` is empty |
| GlobalExceptionHandler.LastMessagesKeys | server/ecommerce/src/main/java/com/pfnredesign/ecommerce/exception/GlobalExceptionHandler.java:86-91 | the map built from the field errors has exactly one key per distinct field |
| GlobalExceptionHandler.LastMessageWins | server/ecommerce/src/main/java/com/pfnredesign/ecommerce/exception/GlobalExceptionHandler.java:86-91 | each field maps to the message of its last error |
| GlobalExceptionHandler.HandleMethodArgumentNotValid | server/ecommerce/src/main/java/com/pfnredesign/ecommerce/exception/GlobalExceptionHandler.java:80-102 | always 400 with "Validation error" and the request URI, whatever status is passed in; the body lists the entries of the last-message map |
| GlobalExceptionHandler.ValidationBodyCoversEveryField | server/ecommerce/src/main/java/com/pfnredesign/ecommerce/exception/GlobalExceptionHandler.java:86-101 | the validation body lists every invalid field with its last error's message, and has one entry per distinct field |
| UserMapper.UpdateEntityFromDTO | server/ecommerce/src/main/java/com/pfnredesign/ecommerce/mapper/impl/UserMapperImpl.java:38-60 | patches the given user in place and returns that same object |
| UserMapper.Patched | server/ecommerce/src/main/java/com/pfnredesign/ecommerce/mapper/impl/UserMapperImpl.java:38-60 | the patched fields: a null DTO keeps the user; otherwise each non-null email, first name, last name and phone replaces the user's |
| UserMapper.ToDTO | server/ecommerce/src/main/java/com/pfnredesign/ecommerce/mapper/impl/UserMapperImpl.java:23-25 | the DTO of a user: id, email, names, phone and both timestamps, without the password hash |
| UserMapper.PatchedFields | server/ecommerce/src/main/java/com/pfnredesign/ecommerce/mapper/impl/UserMapperImpl.java:38-60 | a null DTO changes nothing; each non-null DTO field overwrites the user's and each null one keeps it; id, password hash and timestamps are never touched |
| UserMapper.PatchedIdempotent | server/ecommerce/src/main/java/com/pfnredesign/ecommerce/mapper/impl/UserMapperImpl.java:38-60 | applying the same DTO twice equals applying it once |
| UserMapper.ToDTOs | server/ecommerce/src/main/java/com/pfnredesign/ecommerce/mapper/impl/UserMapperImpl.java:63-65 | same length, each element converted in place |
| UserMapper.ToDTOPage | server/ecommerce/src/main/java/com/pfnredesign/ecommerce/mapper/impl/UserMapperImpl.java:63-65 | a page maps element by element, in order, keeping number, size and total |
| UserMapper.ToDTOHidesPassword | server/ecommerce/src/main/java/com/pfnredesign/ecommerce/mapper/impl/UserMapperImpl.java:23-25 | the DTO does not depend on the password hash |
| UserService.ApplyFieldEffects | server/ecommerce/src/main/java/com/pfnredesign/ecommerce/service/UserServiceImpl.java:132-163 | non-null `firstName`, `lastName` and `phone` overwrite; `password` stores the encoding only when the value is non-empty; an email equal to the current one is skipped, a different one throws "User with email … already exists" if any row has it; null values and other keys change nothing |
| UserService.Violation | server/ecommerce/src/main/java/com/pfnredesign/ecommerce/model/User.java:18-22 | the constraint a save would break: a null email, then a null password column, then an email held by another row; none exactly when email and password hash are present and no other row has the email |
| UserService.ApplyFields | server/ecommerce/src/main/java/com/pfnredesign/ecommerce/service/UserServiceImpl.java:132-163 | `fields.forEach` as a left fold of the per-entry switch; the first throw ends the fold with that error |
| UserService.ApplyFieldsErrorStops | server/ecommerce/src/main/java/com/pfnredesign/ecommerce/service/UserServiceImpl.java:132-163 | once an entry has thrown, later entries make no difference |
| UserService.ApplyFieldsKeepsEmailFree | server/ecommerce/src/main/java/com/pfnredesign/ecommerce/service/UserServiceImpl.java:132-163 | a successful patch keeps id and timestamps, never nulls email or password hash, and leaves the email as it was or at one no row holds |
| UserService.ReplacingRowKeepsValid | server/ecommerce/src/main/java/com/pfnredesign/ecommerce/model/User.java:18-22 | replacing a row with one that keeps its own email or takes a free one violates no constraint and keeps the table valid |
| UserService.InsertingRowKeepsValid | server/ecommerce/src/main/java/com/pfnredesign/ecommerce/model/User.java:18-22 | a new row under the next id with a free email violates no constraint and keeps the table valid |
| UserService.UserServiceImpl.constructor | server/ecommerce/src/main/java/com/pfnredesign/ecommerce/service/UserServiceImpl.java:35-44 | an empty, valid table with the given encoder, token generator and messages |
| UserService.UserServiceImpl.Save | server/ecommerce/src/main/java/com/pfnredesign/ecommerce/model/User.java:14-22 | a save that would violate a constraint stores nothing and throws the constraint's error; a new user gets the next id; an existing one replaces its row; the table stays valid |
| UserService.UserServiceImpl.FindByEmail | server/ecommerce/src/main/java/com/pfnredesign/ecommerce/service/UserServiceImpl.java:80 | null exactly when no row has the email, else a fresh copy of that row |
| UserService.UserServiceImpl.RegisterUser | server/ecommerce/src/main/java/com/pfnredesign/ecommerce/service/UserServiceImpl.java:47-63 | a taken email throws `UserAlreadyExistsException` and saves nothing; otherwise exactly one row is inserted under the next id with the email, encoded password and both names, and its projection is returned; the table stays valid |
| UserService.UserServiceImpl.AuthenticateUser | server/ecommerce/src/main/java/com/pfnredesign/ecommerce/service/UserServiceImpl.java:66-90 | bad credentials become "Invalid email or password" and other failures propagate, neither touching the security context; success stores the authentication, and returns the principal's generated token with the projection of the row holding the request's email, or fails as `fromUser(null)` does when there is none |
| UserService.UserServiceImpl.GetCurrentUser | server/ecommerce/src/main/java/com/pfnredesign/ecommerce/service/UserServiceImpl.java:93-101 | null without an authenticated principal; otherwise null exactly when no row has the principal's name as email, else that row |
| UserService.UserServiceImpl.GetUserById | server/ecommerce/src/main/java/com/pfnredesign/ecommerce/service/UserServiceImpl.java:114-116 | present exactly when the id is stored, as a fresh copy of its row |
| UserService.UserServiceImpl.SaveUser | server/ecommerce/src/main/java/com/pfnredesign/ecommerce/service/UserServiceImpl.java:119-121 | the repository's save: a violation stores nothing, an update replaces the row, an insert uses the next id |
| UserService.UserServiceImpl.UpdateUser | server/ecommerce/src/main/java/com/pfnredesign/ecommerce/service/UserServiceImpl.java:124-166 | an unknown id gives null and saves nothing; otherwise the entries apply in order; the first error is returned with nothing saved; else the patched row replaces the old one; email uniqueness is preserved |
| UserService.UserServiceImpl.DeleteUser | server/ecommerce/src/main/java/com/pfnredesign/ecommerce/service/UserServiceImpl.java:169-171 | the id's row is gone, the table stays valid, and the call is recorded |
| Controllers.SortOf | server/ecommerce/src/main/java/com/pfnredesign/ecommerce/controller/UserController.java:61-69 | an empty sort array gives `userId`; otherwise the property is the first entry |
| Controllers.SortDirection | server/ecommerce/src/main/java/com/pfnredesign/ecommerce/controller/UserController.java:61-69 | descending exactly when a second entry spells "desc" in any case (including the long s), else ascending |
| Controllers.DefaultListing | server/ecommerce/src/main/java/com/pfnredesign/ecommerce/controller/UserController.java:55-58 | the defaults ask for page 0 of size 10 sorted by `userId` ascending |
| Controllers.ParseSort | server/ecommerce/src/main/java/com/pfnredesign/ecommerce/controller/UserController.java:61-69 | the reassigned `direction` and `property` equal `SortOf` of the array |
| Controllers.UserController.GetAllUsers | server/ecommerce/src/main/java/com/pfnredesign/ecommerce/controller/UserController.java:54-79 | the defaults apply to absent parameters; the repository's page for the derived request is converted element by element; its errors propagate |
| Controllers.UserController.GetUserById | server/ecommerce/src/main/java/com/pfnredesign/ecommerce/controller/UserController.java:87-95 | 404 exactly when the id is not stored; otherwise 200 with the row's DTO |
| Controllers.UserController.UpdateUser | server/ecommerce/src/main/java/com/pfnredesign/ecommerce/controller/UserController.java:114-124 | 404 with nothing saved for a missing id; otherwise the DTO patch is saved; a taken email is refused by the table's unique constraint with nothing stored; the table stays valid |
| Controllers.UserController.PartialUpdateUser | server/ecommerce/src/main/java/com/pfnredesign/ecommerce/controller/UserController.java:132-140 | 404 exactly when the id is not stored; otherwise the service's patch, 200 with the patched user's DTO, or its error |
| Controllers.UserController.DeleteUser | server/ecommerce/src/main/java/com/pfnredesign/ecommerce/controller/UserController.java:148-155 | a stored id is deleted with 200; a missing one gives 404, and the service's delete is not called |

## Left out

- HTTP, `localStorage`, the browser location, JSON parse/stringify, the password encoder, JWT generation, the authentication manager, the database and ModelMapper are not executed. They are parameters whose outcomes the contracts quantify over.
- ApiClient.Exchanged: a 2xx answer's body is taken to have the type the caller declares, as `post<T>` trusts it to; every `setTokens` within one operation, the interceptor's and the login's, is given the same medium.
- ApiClient.ApiClient.Execute: the request interceptor's error handler only passes a rejection on, and is not modelled separately.
- Asynchrony. Each async operation runs to completion; there is no interleaving, and concurrent refreshes are not coalesced (the source does not coalesce them either).
- React rendering, react-query internals beyond a mutation's pending/failed state, and the `refreshTokenMutation`'s own state, which the exposed values do not read.
- Timestamps. `LocalDateTime.now()` in `ApiError` and the `@CreationTimestamp`/`@UpdateTimestamp` values are not set by the model; `createdAt`/`updatedAt` stay whatever the row holds.
- HATEOAS links (`toUserModel`), `createUser` and `toEntity` (ModelMapper conversions), and `getAllUsers()` without paging are not modelled.
- Controllers.UserController.GetAllUsers: `PageRequest` validation and the database's ordering live inside the `findAll` parameter.
- UserMapper.ToDTO: ModelMapper's conversion is taken to be the strict copy of the seven same-named fields.
- Routes.MatchRoute: percent-decoding of the pathname is not modelled. Case folding covers ASCII letters only; this is exact for the route table's literal segments, since a case-insensitive JavaScript pattern folds no other character onto an ASCII letter.
- Routes.Segments: a pathname that does not start with `/` matches no route; the router never produces one, except the empty pathname, which is read as `/`.
- JavaLang.StringHash: characters outside the Basic Multilingual Plane are one `char` here, not a surrogate pair.
- JavaLang.EqualsIgnoreCase: the case table covers ASCII and the four non-ASCII characters that fold onto ASCII letters (ſ, ı, the Kelvin sign K, İ); it is exact whenever one side is ASCII, as in the controller's comparison with "desc".
- UserService.UserServiceImpl.Save: ids are unbounded, so `Long` overflow of the identity counter is not modelled. Saving an entity whose id has no row is excluded by the precondition; the service only saves new or fetched users.
- UserService.RegistrationRequest: its fields are non-null; validation of the request happens before the service.
- Exception messages are modelled as present strings; a null `getMessage()` printed as "null" is not modelled.
- The handler's cast of every validation error to `FieldError` is assumed to succeed (object-level errors are not modelled).
- `server/ecommerce/model/User.java`, a stale copy of the entity, is not part of this model.
