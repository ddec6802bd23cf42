# BlogBoard in Dafny

BlogBoard is a small blog: a React front end where visitors read a public
feed and signed-in users write, edit and delete their own posts, and a
FastAPI back end with a user table, a post table and JWT bearer
authentication. This project models the deterministic rules of both halves
and proves what they promise:

- **Client session** (`SessionStore`, `TokenCodec`, `AuthProvider`,
  `AuthGuards`, `ApiClient`): the one-entry `localStorage` record
  `{token, username}`, the token checks on the `exp` and `sub` claims of
  section 4.1 of RFC 7519, the `{user, loading, error}` state machine of
  `initialize`/`login`/`logout`, the two route guards, and the request
  interceptor that attaches `Authorization: Bearer <token>` as section 2.1 of
  RFC 6750 describes it. It also covers how every `authService` and
  `postService` call reaches a back-end route.
- **Forms** (`Register`, `Login`): field validation, submit gating and
  routing of a server error message to one field.
- **Server validation** (`UserSchema`): the pydantic validators of
  `UserCreate`, including Python's `re.match` with `$`, which also accepts one
  trailing newline.
- **Back end** (`Database`, `AuthUtils`, `AuthRoutes`, `PostRoutes`): tables as
  maps keyed by id. The model covers:
  - registration with its uniqueness checks and rollback;
  - a login that answers an unknown username and a wrong password alike;
  - token claims, the bearer-scheme header parsing and token-to-user
    resolution;
  - the five post routes, with 404 checked before 403.
- **Views** (`PostViews`, `DashboardPage`, `HomePage`, `PostCard`):
  - response normalisation and the case-insensitive, order-preserving
    search;
  - the create-or-update choice of the post modal;
  - the modal and confirm-dialog transitions;
  - authorship;
  - the relative-time labels.
- **Across both halves** (`EndToEnd`): a token issued by `/auth/login` and
  stored by the client's `login` authenticates later requests as the same user.

Stateful code is modelled as classes. Each method's `ensures` ties the new
state to a step function of the old state, or states the new fields outright.
The pure parts are functions whose contracts, and the lemmas beside them,
state the promised properties.

Foreign code is represented by parameters:
- `decode` stands for `jwtDecode`;
- `encode`/`decode` stand for PyJWT;
- `hash`/`verify` stand for pwdlib;
- a `fault`/`insertFails` flag stands for an unexpected exception;
- `nowMs`/`nowSec` stand for the clock.

JSON storage of the session record is a concrete encoding with a proved round
trip. `localStorage` is a map plus an `available` flag; when the flag is false,
every storage call throws.

Two places where the client's checks and the server's disagree are proved as
concrete inputs:
- `Register.PasswordLengthGap`: JavaScript's `length` counts UTF-16 units while
  Python's `len` counts code points.
- `Register.UsernamePaddingGap`: the client does not strip the username.

Two facts are proved rather than assumed:
- `Register.ClientEmailPassesServer`: every address the client accepts also
  passes the server's pattern.
- `AuthUtils.BearerCredential`: it models FastAPI's `OAuth2PasswordBearer`
  scheme parsing. FastAPI's code is not part of this model; its behaviour is
  stated from how `oauth2_scheme` is used.

## Model

| member | source | states |
|---|---|---|
| SessionStore.ParseSerialize | frontend/src/hooks/utilsAuth.js:8 | parsing the stored text of a record gives that record back |
| SessionStore.ReadAuth | frontend/src/hooks/utilsAuth.js:5-13 | a record is read only from an available store whose entry is present, non-empty and parses |
| SessionStore.WriteThenRead | frontend/src/hooks/utilsAuth.js:8-17 | reading right after writing a record returns exactly that record |
| SessionStore.ClearThenRead | frontend/src/hooks/utilsAuth.js:23-25 | after the entry is removed nothing is read |
| SessionStore.GetStoredAuth | frontend/src/hooks/utilsAuth.js:5-13 | returns the record of the store's state, `None` when missing, empty, unparsable or when storage throws; never throws |
| SessionStore.SetStoredAuth | frontend/src/hooks/utilsAuth.js:15-21 | overwrites only the entry's key; a storage error is swallowed and leaves the store as it was |
| SessionStore.ClearStoredAuth | frontend/src/hooks/utilsAuth.js:23-25 | removes only that key; reports that it throws exactly when storage is unavailable |
| TokenCodec.IsValidToken | frontend/src/hooks/utilsAuth.js:27-35 | false for a missing or empty token, one that does not decode, or one without `exp`; otherwise true iff `exp * 1000 > nowMs` |
| TokenCodec.ExpiredStaysExpired | frontend/src/hooks/utilsAuth.js:31 | a token invalid now stays invalid later |
| TokenCodec.GetUserIdFromToken | frontend/src/hooks/utilsAuth.js:37-46 | `null` iff the token is missing, empty or undecodable, `undefined` iff it has no `sub`, otherwise the `sub` claim |
| AuthProvider.InitialState | frontend/src/context/AuthProvider.jsx:6-10 | no user, loading, no error |
| AuthProvider.InitializeStep | frontend/src/context/AuthProvider.jsx:12-34 | signs in from the stored record iff it has a valid token, keeping the store; otherwise it clears the entry and signs out; when storage throws it reports 'Authentication failed'; loading always ends false |
| AuthProvider.LoginStep | frontend/src/context/AuthProvider.jsx:40-62 | an empty token or username keeps the user and the store and reports 'Login failed'; otherwise it writes exactly `{token, username}` and signs in without checking expiry |
| AuthProvider.LogoutStep | frontend/src/context/AuthProvider.jsx:64-67 | clears exactly the entry and signs out; a throwing store leaves everything as it was |
| AuthProvider.LogoutIdempotent | frontend/src/context/AuthProvider.jsx:64-67 | logging out twice equals logging out once |
| AuthProvider.InitializeIdempotent | frontend/src/context/AuthProvider.jsx:12-34 | re-running `initialize` leaves the session exactly as one run did |
| AuthProvider.InitializeAfterLogout | frontend/src/context/AuthProvider.jsx:12-34 | `initialize` after `logout` stays signed out |
| AuthProvider.LoginThenInitialize | frontend/src/context/AuthProvider.jsx:14-25 | a reload after a login with a still-valid token restores the same state |
| AuthProvider.ExpiredLoginThenInitialize | frontend/src/context/AuthProvider.jsx:26-29 | a reload after logging in with an expired token signs out and clears the entry |
| AuthProvider.RehydrateScenario | frontend/src/context/AuthProvider.jsx:14-25 | a concrete stored record with a valid token yields the user `alice` |
| AuthProvider.AuthProvider.constructor | frontend/src/context/AuthProvider.jsx:6-10 | the provider starts in the initial state over the given store |
| AuthProvider.AuthProvider.Initialize | frontend/src/context/AuthProvider.jsx:12-34 | the new state and store are `InitializeStep` of the old |
| AuthProvider.AuthProvider.Login | frontend/src/context/AuthProvider.jsx:40-62 | the new state and store are `LoginStep` of the old |
| AuthProvider.AuthProvider.Logout | frontend/src/context/AuthProvider.jsx:64-67 | the new state and store are `LogoutStep` of the old; throws iff storage is unavailable |
| AuthGuards.ProtectedRoute | frontend/src/context/AuthGuards.jsx:5-17 | spinner while loading; redirect to `/login` iff done loading without a user; the page iff done loading with one |
| AuthGuards.GuestRoute | frontend/src/context/AuthGuards.jsx:19-31 | spinner while loading; redirect to `/dashboard` iff done loading with a user; the page iff done loading without one |
| AuthGuards.ExactlyOneGuardPasses | frontend/src/context/AuthGuards.jsx:16-30 | once loading is over exactly one guard renders its children |
| AuthGuards.NoSpinnerAfterInitialize | frontend/src/context/AuthGuards.jsx:8-24 | after `initialize` neither guard shows the spinner |
| ApiClient.AttachBearer | frontend/src/services/api.js:10-16 | with a stored truthy token `Authorization` becomes `Bearer <token>`; other headers are untouched; without one the headers are unchanged |
| ApiClient.RequestConfig.constructor | frontend/src/services/api.js:10 | a request configuration with the given headers |
| ApiClient.Intercept | frontend/src/services/api.js:10-16 | reads the store at send time and edits the config's headers in place as `AttachBearer` says |
| ApiClient.RequestAfterWrite | frontend/src/services/api.js:11-13 | once a record is written, a request carries its bearer token |
| ApiClient.PostPathRoundTrip | frontend/src/services/api.js:33-35 | `/posts/{id}` routes back to that id |
| ApiClient.RegisterRequest | frontend/src/services/api.js:19-20 | POSTs `{username, email, password}` to the register route |
| ApiClient.LoginRequest | frontend/src/services/api.js:21-24 | POSTs `{username, password}` to the login route |
| ApiClient.GetAllPostsRequest | frontend/src/services/api.js:28 | a bodiless GET that reaches `list_posts` |
| ApiClient.GetMyPostsRequest | frontend/src/services/api.js:29 | a bodiless GET that reaches `my_posts` |
| ApiClient.CreatePostRequest | frontend/src/services/api.js:30-31 | POSTs `{title, content}` to `create_post` |
| ApiClient.UpdatePostRequest | frontend/src/services/api.js:32-33 | a PUT of `{title, content}` that reaches `edit_post` for that id |
| ApiClient.DeletePostRequest | frontend/src/services/api.js:34-35 | a bodiless DELETE that reaches `delete_post` for that id |
| PostCard.IsAuthor | frontend/src/components/PostCard.jsx:16 | true iff the token's id, as a string, equals the decimal author id |
| PostCard.SignedOutIsNeverAuthor | frontend/src/components/PostCard.jsx:16 | without a user (`"null"`) nobody is an author |
| PostCard.OwnPostsOnly | frontend/src/components/PostCard.jsx:16 | a token whose `sub` is the user's decimal id makes them author of exactly their own posts |
| PostCard.FormatDate | frontend/src/components/PostCard.jsx:18-34 | "just now" under a minute (negative included), then minute, hour and day buckets with the floor-divided count in [1,59], [1,23], [1,6], then a calendar date from seven days |
| PostCard.FormatDateMonotone | frontend/src/components/PostCard.jsx:28-33 | a later time never gets a finer bucket |
| PostCard.PostCardView.constructor | frontend/src/components/PostCard.jsx:10-11 | menu and full content start closed |
| PostCard.PostCardView.ToggleMenu | frontend/src/components/PostCard.jsx:83-86 | the author's options button flips the menu; nothing else changes |
| PostCard.PostCardView.ClickOutside | frontend/src/components/PostCard.jsx:43-51 | a mouse-down outside closes the author's menu |
| PostCard.PostCardView.ChooseEdit | frontend/src/components/PostCard.jsx:96-98 | hands the post to `onEdit` and closes the menu |
| PostCard.PostCardView.ChooseDelete | frontend/src/components/PostCard.jsx:106-108 | hands the post's id to `onDelete` and closes the menu |
| PostCard.PostCardView.ToggleContent | frontend/src/components/PostCard.jsx:53-56 | flips "Read More" / "Show Less" only |
| PostViews.Select | frontend/src/pages/DashboardPage.jsx:23-27 | no data gives `[]`, an array is kept, a single object is wrapped |
| PostViews.SelectIdempotent | frontend/src/pages/HomePage.jsx:22-25 | normalising a normalised list changes nothing |
| PostViews.FilterPosts | frontend/src/pages/DashboardPage.jsx:66-69 | keeps exactly the posts whose lower-cased title or content contains the lower-cased query, each as often as before, in original order |
| PostViews.FilterIgnoresQueryCase | frontend/src/pages/HomePage.jsx:56-59 | queries equal up to case filter alike |
| PostViews.EmptyQueryKeepsAll | frontend/src/pages/DashboardPage.jsx:66-69 | the empty query keeps every post with a title or content |
| PostViews.MutationRequest | frontend/src/pages/DashboardPage.jsx:30-39 | a create mutation reaches `create_post`, an update reaches `edit_post` for its id, both with `{title, content}` |
| PostViews.InitialPage | frontend/src/pages/DashboardPage.jsx:12-16 | empty search, nothing selected, modal and dialog closed |
| PostViews.Visible | frontend/src/pages/HomePage.jsx:56-59 | the posts on screen are an order-preserving subsequence that all match the query |
| PostViews.ConfirmTarget | frontend/src/pages/DashboardPage.jsx:122 | an open dialog confirms the pending id |
| PostViews.SharedStepsKeepInvariants | frontend/src/pages/DashboardPage.jsx:56-64 | every shared transition keeps "dialog open iff an id is pending" and "a selection only while the modal is open" |
| PostViews.CloseAndUpdateSuccessAgree | frontend/src/pages/HomePage.jsx:30-34 | closing the modal and a successful update give the same closed state |
| DashboardPage.Submit | frontend/src/pages/DashboardPage.jsx:105-111 | an update of the selected post's id iff a post is selected, otherwise a create, with the modal's title and content |
| DashboardPage.OpenCreateKeepsInvariants | frontend/src/pages/DashboardPage.jsx:97 | the floating button keeps both page invariants |
| DashboardPage.CreateSuccessKeepsSelectionInModal | frontend/src/pages/DashboardPage.jsx:32-35 | a successful create keeps the selection invariant iff nothing is selected |
| DashboardPage.EditAfterCreateUpdates | frontend/src/pages/DashboardPage.jsx:56-59 | after "edit" the modal submits an update of that post |
| DashboardPage.DashboardPage.constructor | frontend/src/pages/DashboardPage.jsx:12-16 | page starts in the initial state |
| DashboardPage.DashboardPage.Receive | frontend/src/pages/DashboardPage.jsx:20-28 | the list becomes the normalised query result |
| DashboardPage.DashboardPage.Search | frontend/src/pages/DashboardPage.jsx:76 | only the search text changes |
| DashboardPage.DashboardPage.HandleEdit | frontend/src/pages/DashboardPage.jsx:56-59 | selects the post and opens the modal |
| DashboardPage.DashboardPage.HandleDelete | frontend/src/pages/DashboardPage.jsx:61-64 | remembers the id and opens the dialog |
| DashboardPage.DashboardPage.OpenCreate | frontend/src/pages/DashboardPage.jsx:97 | opens the modal only |
| DashboardPage.DashboardPage.CloseModal | frontend/src/pages/DashboardPage.jsx:101-104 | closes the modal and clears the selection |
| DashboardPage.DashboardPage.CloseDialog | frontend/src/pages/DashboardPage.jsx:117-120 | closes the dialog and clears the pending id |
| DashboardPage.DashboardPage.SubmitModal | frontend/src/pages/DashboardPage.jsx:105-111 | returns the create-or-update mutation; the state is unchanged |
| DashboardPage.DashboardPage.ConfirmDelete | frontend/src/pages/DashboardPage.jsx:122 | returns the pending id; the state is unchanged |
| DashboardPage.DashboardPage.OnCreateSuccess | frontend/src/pages/DashboardPage.jsx:32-35 | closes the modal, keeping the selection |
| DashboardPage.DashboardPage.OnUpdateSuccess | frontend/src/pages/DashboardPage.jsx:40-44 | closes the modal and clears the selection |
| DashboardPage.DashboardPage.OnDeleteSuccess | frontend/src/pages/DashboardPage.jsx:49-53 | closes the dialog and clears the pending id |
| HomePage.Submit | frontend/src/pages/HomePage.jsx:92-96 | a mutation iff a post is selected, and then an update of its id; never a create |
| HomePage.StepsKeepModalHoldsSelection | frontend/src/pages/HomePage.jsx:46-54 | every feed transition keeps "modal open iff a post is selected" |
| HomePage.OpenModalSubmitUpdates | frontend/src/pages/HomePage.jsx:92-96 | with the invariant, an open modal always submits an update |
| HomePage.HomePage.constructor | frontend/src/pages/HomePage.jsx:11-15 | page starts in the initial state |
| HomePage.HomePage.Receive | frontend/src/pages/HomePage.jsx:19-26 | the list becomes the normalised query result |
| HomePage.HomePage.Search | frontend/src/pages/HomePage.jsx:65 | only the search text changes |
| HomePage.HomePage.HandleEdit | frontend/src/pages/HomePage.jsx:46-49 | selects the post and opens the modal |
| HomePage.HomePage.HandleDelete | frontend/src/pages/HomePage.jsx:51-54 | remembers the id and opens the dialog |
| HomePage.HomePage.CloseModal | frontend/src/pages/HomePage.jsx:88-91 | closes the modal and clears the selection |
| HomePage.HomePage.CloseDialog | frontend/src/pages/HomePage.jsx:103-106 | closes the dialog and clears the pending id |
| HomePage.HomePage.SubmitModal | frontend/src/pages/HomePage.jsx:92-96 | returns the update-only mutation; the state is unchanged |
| HomePage.HomePage.ConfirmDelete | frontend/src/pages/HomePage.jsx:107 | returns the pending id; the state is unchanged |
| HomePage.HomePage.OnUpdateSuccess | frontend/src/pages/HomePage.jsx:30-34 | closes the modal and clears the selection |
| HomePage.HomePage.OnDeleteSuccess | frontend/src/pages/HomePage.jsx:39-43 | closes the dialog and clears the pending id |
| Register.EmptyFields | frontend/src/pages/Register.jsx:12-21 | every field starts empty |
| Register.ClientEmailSplitsAtFirstAt | frontend/src/pages/Register.jsx:8 | an accepted address splits at its first `@` |
| Register.ClientEmailMatches | frontend/src/pages/Register.jsx:8 | the executable test agrees with the pattern: local part, a fixed provider, `.`, a fixed top-level domain |
| Register.ValidateField | frontend/src/pages/Register.jsx:24-36 | empty values and unknown fields are valid; username errs iff under 3 UTF-16 units, password iff under 6, email iff the pattern fails; only the three fixed messages occur |
| Register.ValidateAll | frontend/src/pages/Register.jsx:77-81 | each field's error is `validateField` of its value |
| Register.EmptyFormIsValid | frontend/src/pages/Register.jsx:25 | an empty form has no errors |
| Register.RouteRegisterError | frontend/src/pages/Register.jsx:62-71 | the message (`detail` or 'Registration failed') goes to username if it mentions 'Username', else email for 'Email', else password for 'Password', else nowhere; other fields keep their errors |
| Register.AtMostOneTarget | frontend/src/pages/Register.jsx:64-69 | a message is routed to at most one field |
| Register.DuplicateUsernameRouted | frontend/src/pages/Register.jsx:64-65 | 'Username already exists' lands on the username field only |
| Register.ProviderIsWord | frontend/src/pages/Register.jsx:8 | every provider name is a non-empty run of letters |
| Register.TopLevelDomainIsWord | frontend/src/pages/Register.jsx:8 | every client top-level domain is 2 or 3 letters |
| Register.ClientEmailPassesServer | frontend/src/pages/Register.jsx:8 | an address the client accepts passes the server's email validator |
| Register.PasswordLengthGap | frontend/src/pages/Register.jsx:32 | three astral characters pass the client's length check but fail the server's |
| Register.UsernamePaddingGap | frontend/src/pages/Register.jsx:28 | `"  a"` passes the client but the server rejects it |
| Register.RegisterPage.constructor | frontend/src/pages/Register.jsx:12-21 | form and errors start empty |
| Register.RegisterPage.HandleChange | frontend/src/pages/Register.jsx:51-54 | only the named field of the form changes |
| Register.RegisterPage.RevalidateAfterDelay | frontend/src/pages/Register.jsx:38-46 | the errors become the validation of the whole form |
| Register.RegisterPage.HandleSubmit | frontend/src/pages/Register.jsx:74-89 | always recomputes the errors; sends the register request iff none is set, so the idle button is disabled iff nothing was sent |
| Register.RegisterPage.OnError | frontend/src/pages/Register.jsx:62-71 | the errors become `RouteRegisterError` of the old errors |
| Register.SubmitGateMatchesButton | frontend/src/pages/Register.jsx:158 | once the errors are recomputed from the form, the button is disabled iff loading or some non-empty field breaks its length or email rule |
| Login.RouteLoginError | frontend/src/pages/Login.jsx:27-36 | the message (`detail` or 'Login failed') goes to username if it mentions 'username' in any case, keeping the password error; else to password if it mentions 'password'; else username gets it and password is cleared |
| Login.ErrorAlwaysShown | frontend/src/pages/Login.jsx:28-35 | a text failure always shows the message on some field |
| Login.InvalidCredentialsRouted | frontend/src/pages/Login.jsx:29-30 | 'Invalid username or password' goes to the username field |
| Login.LoginPage.constructor | frontend/src/pages/Login.jsx:10-17 | form and errors start empty |
| Login.LoginPage.EditUsername | frontend/src/pages/Login.jsx:62 | only the username changes |
| Login.LoginPage.EditPassword | frontend/src/pages/Login.jsx:79 | only the password changes |
| Login.LoginPage.HandleSubmit | frontend/src/pages/Login.jsx:39-43 | clears both errors and sends the credentials |
| Login.LoginPage.OnSuccess | frontend/src/pages/Login.jsx:23-26 | calls the provider's `login` with the response's token and username |
| Login.LoginPage.OnError | frontend/src/pages/Login.jsx:27-36 | the errors become `RouteLoginError` of the old errors |
| UserSchema.ValidateUsername | backend/app/schemas/user.py:8-14 | too short iff the stripped length is under 3 (checked first); bad characters iff otherwise not matching `^[a-zA-Z0-9_-]+$` (one trailing newline allowed); otherwise the stripped value |
| UserSchema.StripTrailingNewline | backend/app/schemas/user.py:12-14 | stripping a pattern body plus a newline removes just the newline |
| UserSchema.UsernameBodyHasNoWhitespace | backend/app/schemas/user.py:12 | a username body contains no whitespace |
| UserSchema.StripOfUsernameMatch | backend/app/schemas/user.py:12-14 | a matching value strips to its body |
| UserSchema.AcceptedUsername | backend/app/schemas/user.py:10-14 | an accepted username has at least 3 characters, all from `[a-zA-Z0-9_-]` |
| UserSchema.TrailingNewlineAccepted | backend/app/schemas/user.py:12-14 | `"abc\n"` is accepted as `"abc"` |
| UserSchema.PaddedUsernameRejected | backend/app/schemas/user.py:12-13 | `" abc"` is rejected by the character rule |
| UserSchema.ValidatePassword | backend/app/schemas/user.py:21-25 | rejected iff under 6 code points; otherwise returned unchanged |
| UserSchema.EmailSplitIsFirstAtLastDot | backend/app/schemas/user.py:29 | a match splits at the only `@` and the last `.` |
| UserSchema.EmailMatches | backend/app/schemas/user.py:29-30 | the executable test agrees with `local@domain.tld` (a top-level domain of 2-6 letters) |
| UserSchema.ValidateEmail | backend/app/schemas/user.py:27-32 | accepted iff the pattern matches, optionally before one trailing newline; returned unchanged; otherwise 'Invalid email format' |
| UserSchema.AcceptedEmailHasOneAt | backend/app/schemas/user.py:29 | an accepted address has exactly one `@` |
| UserSchema.EmailAccepted | backend/app/schemas/user.py:29 | `a@b.co` is accepted |
| UserSchema.ShortTopLevelDomainRejected | backend/app/schemas/user.py:29 | `a@b.c` is rejected |
| UserSchema.ValidateUserCreate | backend/app/schemas/user.py:17-32 | a `UserCreate` iff every field passes, with the stripped username; otherwise every field's error in field order |
| Database.UserTable.constructor | backend/app/models/user.py:8-17 | an empty, valid user table |
| Database.PostTable.constructor | backend/app/models/post.py:12-21 | an empty, valid post table |
| Database.FindByUsername | backend/app/routes/auth.py:17-19 | a row with that username if any, `None` iff there is none |
| Database.FindByEmail | backend/app/routes/auth.py:26-28 | a row with that email if any, `None` iff there is none |
| AuthUtils.LoadConfig | backend/app/utils/auth.py:15-20 | a missing expiry is a `TypeError`, a non-integer a `ValueError`, an unset or empty secret a `RuntimeError`; otherwise the three settings |
| AuthUtils.TokenClaims | backend/app/utils/auth.py:35-40 | a copy of the data with `exp` = now + 60 x minutes added and every other claim kept |
| AuthUtils.DecodeAccessToken | backend/app/utils/auth.py:43-48 | `None` exactly when decoding fails, otherwise the payload |
| AuthUtils.BearerCredential | backend/app/utils/auth.py:22 | a header whose scheme before the first space lower-cases to `bearer` yields exactly the text after that space (a bare `bearer` yields `""`), and Ok only then; otherwise a 401 'Not authenticated' |
| AuthUtils.BearerHeaderRoundTrip | backend/app/utils/auth.py:22 | the header `Bearer <token>` yields `<token>` |
| AuthUtils.GetCurrentUser | backend/app/utils/auth.py:51-61 | 401 'Invalid token' without a decodable payload or `sub`; 500 for an unparsable `sub`; 404 'User not found'; otherwise exactly row `int(sub)` |
| AuthUtils.IssuedTokenResolves | backend/app/utils/auth.py:35-61 | a token issued for `sub = str(id)` resolves to row `id` |
| AuthRoutes.RegisterUser | backend/app/routes/auth.py:12-54 | 400 'Username already exists' first, then 400 'Email already registered', then 500 'Error creating user' with the table unchanged; otherwise exactly one new row with the hashed password |
| AuthRoutes.LoginClaims | backend/app/routes/auth.py:82-85 | claims `sub` = `str(id)` and `username`, nothing else |
| AuthRoutes.LoginUser | backend/app/routes/auth.py:57-101 | a fault is 500 'Login failed'; success iff a row has the username and the password verifies, answering the token, 'bearer' and the username; every other case is the one 401 |
| AuthRoutes.UnknownUserLooksLikeWrongPassword | backend/app/routes/auth.py:70-80 | an unknown user and a wrong password get the identical answer |
| PostRoutes.SortNewest | backend/app/routes/post_routes.py:29 | orders keys newest first and is a permutation of its input |
| PostRoutes.FeedKeys | backend/app/routes/post_routes.py:42-47 | exactly the keys whose rows satisfy the filter, each once, newest first |
| PostRoutes.ListPosts | backend/app/routes/post_routes.py:26-37 | every post exactly once, newest first, named after its author or "Unknown" |
| PostRoutes.MyPosts | backend/app/routes/post_routes.py:39-55 | exactly the current user's posts, each once, newest first, named after the current user |
| PostRoutes.MyPostsAreListed | backend/app/routes/post_routes.py:31-54 | every post of `my_posts` appears identically in `list_posts` |
| PostRoutes.CreatePost | backend/app/routes/post_routes.py:14-24 | adds one row at a fresh id, authored by the current user, and answers with their username |
| PostRoutes.EditPost | backend/app/routes/post_routes.py:57-74 | 404 for a missing post before 403 for another author, both leaving the table unchanged; otherwise only title and content change |
| PostRoutes.DeletePost | backend/app/routes/post_routes.py:76-87 | 404 before 403, both leaving the table unchanged; otherwise exactly that post is removed |
| PostRoutes.DeleteHidesOnlyThatPost | backend/app/routes/post_routes.py:85-87 | after a delete the feed lacks that post and still lists every other |
| PostRoutes.CreatedPostIsListed | backend/app/routes/post_routes.py:17-36 | a created post appears in the feed under its author's name |
| EndToEnd.ClientSendsToken | frontend/src/services/api.js:10-16 | after the client's `login`, the next request's `Authorization` header yields exactly the stored token to the bearer scheme |
| EndToEnd.LoginAuthenticatesLaterRequests | backend/app/routes/auth.py:82-93 | after login and the client's `login`, the next request carries the token and resolves to the user who signed in |

## Left out

- JSX markup, styling and the presentation-only components (PostModal, ConfirmDialog, Navbar, PasswordInput, LoadingSpinner, SearchBar, FloatingButton, Layout, App routing) render and route only.
- The 1000 ms debounce timer of the registration form is timing; `Register.RegisterPage.RevalidateAfterDelay` is the moment it fires.
- JWT signing and verification, `jwtDecode` and password hashing are foreign libraries and are parameters. The expiry check inside `jwt.decode` is part of the abstract `decode`.
- React Query caching and invalidation, axios transport, `navigate` and HTTP status mechanics are library behaviour and I/O.
- SQL sessions, commit/refresh and `selectinload`; tables are maps keyed by id with a next-id counter. backend/app/main.py and backend/app/db/database.py are not part of this model.
- JSON text of the stored record is replaced by a length-prefixed encoding with a proved round trip. The storage quota error is one `available` flag.
- Case-insensitive matching uses ASCII lower-casing only, with no Unicode case folding.
- Dates are integer milliseconds or seconds. `new Date` parsing and `toLocaleDateString` are out of scope; the calendar label is a parameter.
- The IST default timestamp of a new post is the `now` parameter of `PostRoutes.CreatePost`.
- Console logging.
- `EmailStr` validation by the email-validator package is not modelled; only the explicit `validate_email` pattern is.
- FastAPI's re-validation of a response through `response_model` is not modelled.
- Browser form validation (`required` inputs) is not modelled.
- AuthRoutes.LoginUser: any unexpected exception is the single `fault` flag, not a particular failure.
- AuthRoutes.RegisterUser: any failure of hashing or insertion is the single `insertFails` flag.
- PostRoutes.ListPosts: the order among posts with equal `created_at` is whatever the insertion sort yields, because SQL leaves it unspecified.
- Database.FindByUsername, Database.FindByEmail, AuthRoutes.RegisterUser, AuthRoutes.LoginUser: the `==` of the SQL `where` clauses is modelled as exact string equality. The back end targets MySQL, whose default collation (`utf8mb4_0900_ai_ci`) ignores case and accents, so under that collation registering `Alice` beside `alice` is refused and logging in as `ALICE` succeeds, while the model inserts and answers 401. The collation is server configuration that the repository does not fix.
- AuthUtils.SubjectId: Python's `int()` is modelled as surrounding whitespace, an optional sign and decimal digits; `_` digit separators are not accepted.
- Register.ValidateField: JavaScript's `length` is modelled as UTF-16 code units; strings are sequences of code points.
