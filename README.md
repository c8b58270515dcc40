# ClinIQ authentication core in Dafny

This project models the authentication core of the ClinIQ iOS app. It covers five parts:

- **The view model** (`AuthViewModel`). It holds the four published properties `isAuthenticated`, `currentUser`, `isLoading` and `errorMessage`. Its `login` runs two input guards before calling the store. Its `register` runs five. `logout` and `clearError` reset the properties.
- **The in-memory credential store** (`MockAuthService`). It keeps a map from normalized email to password and user. On creation it is seeded with two test accounts. `authenticate` and `createAccount` both look up the lowercased, whitespace-trimmed email.
- **The error taxonomy** (`ValidationError`) and its user-facing messages.
- **The three-way authentication state** (`AuthenticationState`) and its derived flags.
- **The user record** (`User`).

Files, one module per Swift file:

| file | module | models |
|---|---|---|
| `wrappers.dfy` | `Wrappers` | `Option`, `Result` |
| `user.dfy` | `Users` | `User.swift`, and `UUID()` as a counter class |
| `validation_error.dfy` | `ValidationErrors` | `ValidationError.swift` |
| `authentication_state.dfy` | `AuthenticationStates` | `AuthenticationState.swift` |
| `text.dfy` | `Text` | `lowercased()` and `trimmingCharacters(in: .whitespaces)` |
| `email_validation.dfy` | `EmailValidation` | `isValidEmail` and its regular expression |
| `mock_auth_service.dfy` | `MockAuth` | `MockAuthService.swift` |
| `auth_view_model.dfy` | `AuthViewModels` | `AuthViewModel.swift` |

Stateful parts are classes:

- `AuthViewModel` has the four properties and a reference to its store.
- `MockAuthService` has `registeredUsers` as a `map`.
- `UserFactory` hands out fresh ids.

Each state-changing method is specified by a pure function of the old state:

- `AfterLogin`, `AfterRegister`, `AccountsAfterRegister`, `Settle`, `AfterLogout` and `AfterClearError` for the view model.
- `AuthenticateOutcome`, `CreateAccountOutcome` and `AccountsAfterCreate` for the store.

The properties of the system are proved as lemmas about those functions.

Two things the Swift code gets from outside are passed in as parameters:

- **The simulated network delay.** Its only observable effects are that `Task.sleep` may throw and that the call is suspended. The `interrupted` flag models the throw. When set, the call fails with `DelayInterrupted`, a non-`ValidationError` error, before the store is looked at.
- **The clock.** `Date()` becomes the `now` parameter.

`UUID()` becomes the shared `UserFactory`, whose every id is new.

## Guard order: the code is followed

The code validates `register` inputs in this order:

1. blank email;
2. malformed email;
3. empty password;
4. password shorter than 8 characters;
5. confirmation mismatch.

This is `AuthViewModel.swift:98-124`. The model follows this order. A malformed email is therefore reported even when the password is also too short (`InvalidEmailBeforeWeakPassword`).

## Model

| member | source | states |
|---|---|---|
| `Users.UserFactory.NewUser` | clin/clin/User.swift:16-20 | `init(email:)`: the user keeps the email verbatim, is created at `now`, and gets an id never handed out before (the counter advances by one). |
| `ValidationErrors.ErrorDescription` | clin/clin/ValidationError.swift:27-44 | Every case has a description: the optional is never nil. |
| `ValidationErrors.LocalizedDescription` | clin/clin/ValidationError.swift:47-49 | `localizedDescription` is always the `errorDescription` text, never the fallback. |
| `ValidationErrors.FixedMessages` | clin/clin/ValidationError.swift:29-38 | The five parameterless cases read their fixed messages, and no two of them share a message. |
| `ValidationErrors.ParameterisedMessages` | clin/clin/ValidationError.swift:39-42 | `emptyField(f)` reads "f is required"; `custom(m)` reads m verbatim. |
| `ValidationErrors.EmptyFieldMessages` | clin/clin/ValidationError.swift:39-40 | The two field names the view model uses give "Email is required" and "Password is required". |
| `ValidationErrors.EmptyFieldMessageInjective` | clin/clin/ValidationError.swift:39-40 | Two `emptyField` messages are equal if and only if their field names are. |
| `ValidationErrors.UnknownMessageUnreachable` | clin/clin/ValidationError.swift:47-49 | The text "An unknown error occurred" is only ever shown for `custom` with that very text. |
| `AuthenticationStates.DerivedFlags` | clin/clin/AuthenticationState.swift:14-42 | `isAuthenticated` holds exactly for `.authenticated`. `isLoading` holds exactly for `.authenticating`. `currentUser` is `u` exactly for `.authenticated(u)`, and nil otherwise. |
| `AuthenticationStates.FlagsConsistent` | clin/clin/AuthenticationState.swift:14-42 | No state is both authenticated and loading. A user is present exactly when the state is authenticated. |
| `AuthenticationStates.FromFlagsInverts` | clin/clin/AuthenticationState.swift:4-42 | The three derived flags determine the state: `FromFlags` recovers it from them. |
| `AuthenticationStates.FromFlagsSound` | clin/clin/AuthenticationState.swift:4-42 | Flags come from some state if and only if they are not both authenticated and loading and a user is present exactly when authenticated. The recovered state has exactly those flags. |
| `AuthenticationStates.AuthenticatedEquality` | clin/clin/AuthenticationState.swift:4-12 | Synthesised `Equatable`: two `.authenticated` states are equal if and only if their users are. |
| `Text.Lower` | clin/clin/MockAuthService.swift:37 | `lowercased()` keeps the length and lowers each character in place (ASCII letters). |
| `Text.TrimLeading` | clin/clin/AuthViewModel.swift:96 | The result is the suffix left after a run of whitespace, and it does not start with whitespace. |
| `Text.TrimTrailing` | clin/clin/AuthViewModel.swift:96 | The result is the prefix left before a run of whitespace, and it does not end with whitespace. |
| `Text.Trim` | clin/clin/AuthViewModel.swift:96 | `trimmingCharacters(in: .whitespaces)` neither starts nor ends with whitespace. It is empty if and only if the input is all whitespace. |
| `Text.TrimIsInfix` | clin/clin/AuthViewModel.swift:96 | The trim is the infix of the input that starts where the leading whitespace ends. |
| `Text.TrimCutsOnlyWhitespace` | clin/clin/AuthViewModel.swift:96 | Everything the trim removes, before and after, is whitespace. |
| `Text.TrimIdempotent` | clin/clin/AuthViewModel.swift:96 | Trimming twice is trimming once. |
| `Text.TrimOfTrimmed` | clin/clin/AuthViewModel.swift:96 | A string with no whitespace at either end is its own trim. |
| `Text.LowerHasNoCapitals` | clin/clin/MockAuthService.swift:37 | A lowercased string holds no ASCII capitals. |
| `Text.LowerIdempotent` | clin/clin/MockAuthService.swift:37 | Lowering twice is lowering once. |
| `Text.LowerOfLowercase` | clin/clin/MockAuthService.swift:23 | A string without capitals is its own lowercase. |
| `Text.TrimLowerCommute` | clin/clin/MockAuthService.swift:37 | Trimming and lowering commute. |
| `EmailValidation.FirstIndexOf` | clin/clin/AuthViewModel.swift:169 | The first `@`, if any: the position holds it and no earlier one does, or there is none. |
| `EmailValidation.LastIndexOf` | clin/clin/AuthViewModel.swift:169 | The last dot of the domain, if any: the position holds it and no later one does, or there is none. |
| `EmailValidation.IsValidEmailMatchesRegex` | clin/clin/AuthViewModel.swift:168-172 | `isValidEmail` accepts a string if and only if `^[A-Za-z0-9._%+-]+@[A-Za-z0-9.-]+\.[A-Za-z]{2,}$` matches the whole of it. |
| `EmailValidation.MatchDeterminesSplit` | clin/clin/AuthViewModel.swift:169 | Any way of matching the regex implies acceptance, whatever the `@` and dot it uses. |
| `EmailValidation.SeedAddressIsValid` | clin/clin/AuthViewModel.swift:169 | Both seeded addresses, "test@cliniq.com" and "demo@cliniq.com", are accepted. |
| `EmailValidation.OneLetterLabelIsInvalid` | clin/clin/AuthViewModel.swift:169 | "user@host.c" is refused: the top-level label needs two letters. |
| `MockAuth.NormalizeGivesNormalKey` | clin/clin/MockAuthService.swift:37 | A normalized email has no capitals and no whitespace at either end. |
| `MockAuth.NormalKeyIsFixed` | clin/clin/MockAuthService.swift:37 | Such a key is its own normalization. |
| `MockAuth.NormalKeyIffFixed` | clin/clin/MockAuthService.swift:37 | The store's keys are exactly the emails that normalization leaves unchanged. |
| `MockAuth.NormalizeIdempotent` | clin/clin/MockAuthService.swift:37 | Normalizing twice is normalizing once. |
| `MockAuth.NormalizeOfTrim` | clin/clin/MockAuthService.swift:58 | `createAccount` on the view model's trimmed email uses the same key as on the raw email. |
| `MockAuth.PlainEmailIsNormalized` | clin/clin/MockAuthService.swift:21-24 | An email with neither capitals nor whitespace is its own lowercase and its own key. |
| `MockAuth.SeedEmailsPlain` | clin/clin/MockAuthService.swift:10-13 | Both predefined emails have neither capitals nor whitespace. |
| `MockAuth.TestEmailIsNormalized` | clin/clin/MockAuthService.swift:11 | "test@cliniq.com" is its own lowercase and its own key. |
| `MockAuth.CapitalisedTestEmailNormalizes` | clin/clin/MockAuthService.swift:37 | "TEST@CLINIQ.com" normalizes to "test@cliniq.com". |
| `MockAuth.AuthenticateCorrect` | clin/clin/MockAuthService.swift:33-46 | `authenticate` succeeds if and only if the normalized email is stored with exactly that password. It then returns the stored user; otherwise it throws `invalidCredentials`. |
| `MockAuth.InterruptedDelayFails` | clin/clin/MockAuthService.swift:73-76 | When the delay throws, both calls fail with that error and the accounts do not change. |
| `MockAuth.CreateAccountKeepsWellFormed` | clin/clin/MockAuthService.swift:54-70 | `createAccount` keeps the store invariant. Every key is a normalized email, the user under that key carries that email, and ids are unique and already issued. |
| `MockAuth.NormalizedKeyInserted` | clin/clin/MockAuthService.swift:58-67 | Storing under a normalized email keeps every key normalized. |
| `MockAuth.FreshUserInserted` | clin/clin/MockAuthService.swift:66-67 | Storing a fresh user at a new key under its own email keeps keys, emails and ids matched. |
| `MockAuth.CreateThenAuthenticate` | clin/clin/MockAuthService.swift:33-70 | Round trip: after a successful `createAccount`, `authenticate` with any email of the same key and the same password returns that very user. A second `createAccount` for the key throws `userExists`. |
| `MockAuth.SeededLoginIgnoresCase` | clin/clin/MockAuthService.swift:33-46 | The seeded account signs in with "TEST@CLINIQ.com" and its password. |
| `MockAuth.MockAuthService.RegisterAll` | clin/clin/MockAuthService.swift:19-25 | The seeding loop stores each predefined account, in any order, under its lowercased email. Each entry has its password and a fresh user created at `now`. It establishes the store invariant. |
| `MockAuth.MockAuthService.constructor` | clin/clin/MockAuthService.swift:10-25 | `init()`: the store holds exactly the two predefined accounts and satisfies the store invariant. |
| `MockAuth.MockAuthService.Authenticate` | clin/clin/MockAuthService.swift:33-46 | Reads the accounts only. The result is `AuthenticateOutcome`. If the delay throws, that error is thrown. Otherwise it succeeds if and only if the normalized email holds that password, returns the stored user, and throws `invalidCredentials` on failure. |
| `MockAuth.MockAuthService.CreateAccount` | clin/clin/MockAuthService.swift:54-70 | The result is `CreateAccountOutcome`. The accounts gain exactly one entry, a new user under the normalized email, only on success. The id counter advances only then. The store invariant is kept. |
| `AuthViewModels.LoginValidation` | clin/clin/AuthViewModel.swift:47-55 | The `login` guards, in order. "Email is required" if and only if the trimmed email is empty. "Password is required" if and only if the email is not blank and the password is empty. The call proceeds otherwise. |
| `AuthViewModels.RegisterValidation` | clin/clin/AuthViewModel.swift:96-124 | `register` proceeds if and only if the trimmed email is valid, the password has at least 8 characters and equals its confirmation. Any failure is one of the five guard errors. |
| `AuthViewModels.Settle` | clin/clin/AuthViewModel.swift:60-80 | After the store call the session is consistent and signed in exactly on success, with the returned user and no message. A `ValidationError` shows its description; any other error shows the generic message. |
| `AuthViewModels.AfterLogout` | clin/clin/AuthViewModel.swift:156-161 | `logout` restores the initial property values. |
| `AuthViewModels.AfterClearError` | clin/clin/AuthViewModel.swift:176-178 | `clearError` clears the message and nothing else. |
| `AuthViewModels.LoginBlankEmailRejected` | clin/clin/AuthViewModel.swift:47-50 | An all-whitespace email sets only "Email is required", without calling the store. |
| `AuthViewModels.LoginEmptyPasswordRejected` | clin/clin/AuthViewModel.swift:52-55 | An empty password sets only "Password is required". |
| `AuthViewModels.LoginWhitespacePasswordReachesService` | clin/clin/AuthViewModel.swift:47-58 | The password is not trimmed. Any non-empty all-whitespace password (whose trim is empty) passes the guards and reaches the store. |
| `AuthViewModels.LoginCorrect` | clin/clin/AuthViewModel.swift:42-81 | `login` against the store signs in exactly when the guards pass and the normalized email holds the password, or the user was already signed in and a guard stopped the call. On success the stored user is held with no message; a credential failure signs out with "Invalid email or password". |
| `AuthViewModels.LoginInterruptedShowsGenericMessage` | clin/clin/AuthViewModel.swift:72-77 | A non-`ValidationError` error signs out with "An unexpected error occurred. Please try again." |
| `AuthViewModels.RegisterValidationOrder` | clin/clin/AuthViewModel.swift:98-124 | Each guard of `register` reports its error exactly when every earlier guard passed. |
| `AuthViewModels.InvalidEmailBeforeWeakPassword` | clin/clin/AuthViewModel.swift:104-118 | "user@host.c" with the password "abc" is reported as an invalid email, not a weak password. |
| `AuthViewModels.RegisterRejectedChangesNothing` | clin/clin/AuthViewModel.swift:98-124 | When a guard fails, the accounts stay as they were. Only the message of the session changes. |
| `AuthViewModels.RegisterRejectedEffect` | clin/clin/AuthViewModel.swift:98-124 | When a guard fails, the session is the old one with that guard's message. |
| `AuthViewModels.RegisterAcceptedEffect` | clin/clin/AuthViewModel.swift:126-149 | When the guards pass, the session settles on `createAccount(trimmedEmail, password)`. The accounts are what that call leaves. |
| `AuthViewModels.RegisterStoresNormalizedUser` | clin/clin/AuthViewModel.swift:96-130 | A successful `register` stores a new user under the normalized address, carrying that address. |
| `AuthViewModels.RegisteredSettles` | clin/clin/AuthViewModel.swift:132-135 | A successful registration signs the new user in with no message. |
| `AuthViewModels.StoredAccountAuthenticates` | clin/clin/AuthViewModel.swift:42-81 | `login` with a stored, non-blank address and its non-empty password signs in the stored user. |
| `AuthViewModels.StoredAccountExists` | clin/clin/AuthViewModel.swift:126-140 | `register` for an already stored address shows "An account with this email already exists" and is signed out. |
| `AuthViewModels.RegisterThenLogin` | clin/clin/AuthViewModel.swift:42-150 | Round trip. `register` signs in the new user, whose email is the normalized address. A later `login` with any spelling of the address and the same password signs in that very user. Registering it again shows the existing-account message. |
| `AuthViewModels.LogoutIdempotent` | clin/clin/AuthViewModel.swift:156-161 | Logging out twice is logging out once, and it leaves no user and no message. |
| `AuthViewModels.OperationsKeepConsistent` | clin/clin/AuthViewModel.swift:42-178 | Every operation keeps the session consistent: not loading once it returns, and signed in exactly when a user is held. |
| `AuthViewModels.ConsistentIsSettledState` | clin/clin/AuthenticationState.swift:4-42 | A consistent session corresponds to the `.unauthenticated` or `.authenticated(user)` state, never `.authenticating`. |
| `AuthViewModels.RegisterSeededEmailReportsExisting` | clin/clin/AuthViewModel.swift:126-140 | Registering "test@cliniq.com" against the seeded store reports the existing account. |
| `AuthViewModels.SeedRegistrationPassesGuards` | clin/clin/AuthViewModel.swift:98-124 | "test@cliniq.com" with "password123" passes every guard of `register`. |
| `AuthViewModels.SeededLoginSucceeds` | clin/clin/AuthViewModel.swift:42-81 | `login` with "TEST@CLINIQ.com" and the seeded password signs in the seeded user. |
| `AuthViewModels.SeededDemoLoginSucceeds` | clin/clin/AuthViewModel.swift:42-81 | `login` with "demo@cliniq.com" and "demo123" signs in the seeded demo user, although the password has fewer than 8 characters. |
| `AuthViewModels.DemoPasswordTooWeakToRegister` | clin/clin/AuthViewModel.swift:104-118 | Registering "demo@cliniq.com" with "demo123" is refused as a weak password. |
| `MockAuth.DemoEmailIsNormalized` | clin/clin/MockAuthService.swift:12 | "demo@cliniq.com" is its own lowercase and its own key. |
| `AuthViewModels.RegisterEffect` | clin/clin/AuthViewModel.swift:91-150 | The two cases of `register` together give `AfterRegister` for the session and `AccountsAfterRegister` for the accounts. |
| `AuthViewModels.AuthViewModel.constructor` | clin/clin/AuthViewModel.swift:11-33 | `init(authService:)`: signed out, not loading, no message. |
| `AuthViewModels.AuthViewModel.Login` | clin/clin/AuthViewModel.swift:42-81 | The properties afterwards are `AfterLogin` of the old ones, with the raw email sent to the store. The store is untouched and the session stays consistent. |
| `AuthViewModels.AuthViewModel.Register` | clin/clin/AuthViewModel.swift:91-150 | The properties become `AfterRegister` of the old ones, and the accounts become `AccountsAfterRegister`. When a guard fails, only the message changes and the store is not called. Otherwise the properties settle on `createAccount` with the trimmed email. The id counter advances exactly when an account is created. |
| `AuthViewModels.AuthViewModel.Submit` | clin/clin/AuthViewModel.swift:126-149 | Loading, `createAccount(trimmedEmail, password)`, then the settled properties, the updated accounts and the id counter. |
| `AuthViewModels.AuthViewModel.Complete` | clin/clin/AuthViewModel.swift:60-80 | The `do`/`catch` and the final `isLoading = false`: the properties become `Settle` of the outcome. |
| `AuthViewModels.AuthViewModel.Logout` | clin/clin/AuthViewModel.swift:156-161 | All four properties return to their initial values. |
| `AuthViewModels.AuthViewModel.ClearError` | clin/clin/AuthViewModel.swift:176-178 | Only the message is cleared. |

## Left out

- `AuthServiceProtocol` is not modelled as an abstraction. The view model holds a `MockAuthService` directly, the one conforming type in the core.
- The default argument `MockAuthService()` of `init(authService:)`: the caller builds the store and passes it in.
- `async`/`await`, `@MainActor` and Combine publishing.
  - The intermediate `isLoading = true` is set, but no observer can see it, since each method runs to completion.
  - Overlapping calls are not modelled.
- The random delay duration (`Double.random(in: 0.5...1.5)`). Only whether `Task.sleep` throws is kept, as the `interrupted` parameter.
- `UUID()` is a counter in `UserFactory`. Uniqueness is kept; randomness and format are not.
- `Date()` is the `now` parameter.
- `lowercased()` is modelled for ASCII letters only. Unicode case mapping, which may change a string's length, is not modelled.
- `password.count` counts Swift `Character`s (grapheme clusters). The model counts `char`s.
- `CharacterSet.whitespaces` is the tab plus the Unicode space separators, listed explicitly.
- The regular expression is modelled by its meaning over whole-string `MATCHES`, not by `NSPredicate`'s engine.
- `Codable` and `Identifiable` conformance of `User`.
- `User(email:)` in the seeding loop keeps the seeded email verbatim and stores it under `email.lowercased()`. The model relies on the seed emails being plain (no capitals, no whitespace), so the two agree.
- The order of Swift dictionary iteration in `init()`: the seeding loop picks the accounts in an arbitrary order.
- `MockAuth.AuthenticateOutcome`, `MockAuth.CreateAccountOutcome` and `AuthViewModels.RegisterValidation` compare strings character by character. Swift's `String ==` and `Dictionary<String, _>` lookup use Unicode canonical equivalence. The model therefore does not treat differently normalized spellings as equal: an NFC "é" and an NFD "e" plus U+0301 differ in the password check (`MockAuthService.swift:41`), the confirmation check (`AuthViewModel.swift:121`) and the key lookups (`MockAuthService.swift:40`, `61`).
- `MockAuth.MockAuthService.constructor`: both seeded users get the same `now` as `createdAt`. Swift calls `Date()` once per `User(email:)`, so their timestamps may differ slightly. Nothing in the core reads `createdAt`.
- `AuthViewModels.AuthViewModel.Login` and the other view model methods require the view model's invariant `Valid()`. The invariant is a consistent session over a well-formed store, and every method establishes or keeps it.
