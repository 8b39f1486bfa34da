# Sign-in authorization for azurechat, modelled in Dafny

This project models the access and admin decisions of azurechat's NextAuth
configuration (`src/features/auth/auth-api.ts`), with the NextAuth and
`fetch` wrappers taken away:

- **Allow-list parsing** (`AllowList`, on top of `Text`). `ADMIN_EMAIL_ADDRESS`
  and `AZURE_AD_ALLOWED_PRINCIPALS` are split on `,`. Each field is
  lower-cased and trimmed, and empty fields are dropped. An unset variable
  gives no list (`None`); a set but blank one gives the empty list.
- **Admin matching** (`AdminMatch`). GitHub checks the lower-cased e-mail
  address. Azure AD checks the lower-cased e-mail address or the lower-cased
  `preferred_username`. With no list the flag is `undefined` (`None`), which
  the callbacks treat as false.
- **Azure AD access gate** (`AzureGate`). With no allowed-principals list, or
  an empty one, everyone is allowed and Microsoft Graph is never called.
  Otherwise the default is deny. The user is allowed only when
  `getMemberObjects` answers OK and some listed principal is among the
  returned ids plus the user's own `oid`. A non-OK status and any thrown
  error deny (fail closed).
- **Profile hooks** (`Profiles`). The GitHub hook always allows. The Azure AD
  hook takes `id` from `sub`. Each hook attaches `isAdmin` and `isAllowed` to
  the profile.
- **Provider registry** (`Registry`). GitHub is registered when both of its
  credentials are set. Azure AD follows when all three of its credentials are
  set.
- **Callbacks** (`Callbacks`). `jwt` copies a truthy `isAdmin` onto the token
  and never clears it. `session` copies the token's flag onto
  `session.user`. `signIn` returns `isAllowed`.

The Graph call is an input value, `GraphOutcome`: `Ok(value)`, `NotOk(status)`
or `Threw`. Environment variables are `Option<string>` parameters. Tokens and
sessions are classes whose fields the callbacks assign in place.

Behaviour of the code that the model keeps:

- No timeout is put on the Graph call.
- `profile.email.toLowerCase()` runs only when ADMIN_EMAIL_ADDRESS is set.
  With the variable unset, optional chaining skips the call and its
  argument. So a missing `email` crashes the hook only when the list is set.
  `profile.preferred_username.toLowerCase()` runs only when the list is set
  and the e-mail did not match, because `||` short-circuits. The model
  requires both fields in the profile datatype (see "Left out").
- `session` assigns to the session object it is given instead of building a
  new one.

## Model

| member | source | states |
|---|---|---|
| `Text.ToLower` | src/features/auth/auth-api.ts:9 | lower-casing keeps the length, leaves no upper-case letter and maps each character on its own |
| `Text.ToLowerOfLower` | src/features/auth/auth-api.ts:9 | lower-casing a string that has no upper-case letter changes nothing |
| `Text.TrimStartSlice` | src/features/auth/auth-api.ts:9 | what is cut from the front is all whitespace, and a suffix of the input remains |
| `Text.TrimEndSlice` | src/features/auth/auth-api.ts:9 | what is cut from the back is all whitespace, and a prefix of the input remains |
| `Text.Trim` | src/features/auth/auth-api.ts:9 | `trim` leaves no whitespace at either end, and gives the empty string exactly when the input is all whitespace |
| `Text.TrimIsInfix` | src/features/auth/auth-api.ts:9 | the trimmed string is a contiguous part of the input, and only whitespace is cut on each side |
| `Text.TrimOfTrimmed` | src/features/auth/auth-api.ts:9 | trimming a string with no whitespace at its ends changes nothing |
| `Text.TrimKeepsNoUpper` | src/features/auth/auth-api.ts:9 | trimming a string with no upper-case letter leaves none |
| `Text.Split` | src/features/auth/auth-api.ts:9 | `split(",")` always gives at least one field, and no field contains the separator |
| `Text.JoinSplit` | src/features/auth/auth-api.ts:9 | splitting loses nothing: joining the fields with the separator gives the input back |
| `AllowList.Normalize` | src/features/auth/auth-api.ts:9 | a normalised field has no upper-case letter and no whitespace at its ends, and is empty exactly when the field is blank |
| `AllowList.NormalizeIsInfix` | src/features/auth/auth-api.ts:9 | a normalised field is the lower-cased form of a contiguous part of the field, and only whitespace is cut on either side |
| `AllowList.NormalizeIdempotent` | src/features/auth/auth-api.ts:9 | normalising an already normalised entry changes nothing |
| `AllowList.NormalizeFields` | src/features/auth/auth-api.ts:9 | the map-and-filter keeps no more entries than there are fields, and every entry is non-empty, lower-case and trimmed |
| `AllowList.ParseList` | src/features/auth/auth-api.ts:9-10 | an unset variable gives no list and a set one gives a list; every entry is non-empty, lower-case and trimmed |
| `AllowList.NormalizeFieldsComplete` | src/features/auth/auth-api.ts:9 | every non-blank field appears in the result, normalised |
| `AllowList.NormalizeFieldsSound` | src/features/auth/auth-api.ts:9 | every entry of the result is the normalisation of some non-blank field |
| `AllowList.ParseListMembership` | src/features/auth/auth-api.ts:9-10 | a string is in the parsed list exactly when some non-blank comma-separated field of the value normalises to it |
| `AllowList.NormalizeFieldsEmpty` | src/features/auth/auth-api.ts:9 | the map-and-filter drops everything exactly when every field is blank |
| `AllowList.ParseListEmpty` | src/features/auth/auth-api.ts:10 | a set variable gives the empty list exactly when every field is blank |
| `AdminMatch.IsListed` | src/features/auth/auth-api.ts:20 | the GitHub admin flag is undefined exactly when the list is unset, and truthy exactly when the list holds the lower-cased address |
| `AdminMatch.AzureADIsAdmin` | src/features/auth/auth-api.ts:91 | the Azure AD flag is undefined exactly when the list is unset, and truthy exactly when the list holds the lower-cased address or the lower-cased `preferred_username` |
| `AdminMatch.AdminIgnoresCase` | src/features/auth/auth-api.ts:20 | two addresses that differ only in letter case get the same admin flag |
| `AdminMatch.GitHubAdminFromEnv` | src/features/auth/auth-api.ts:9-20 | a GitHub user is an admin exactly when the variable is set and one of its non-blank fields, normalised, equals the lower-cased address |
| `AdminMatch.AzureADAdminFromEnv` | src/features/auth/auth-api.ts:9-91 | the same for Azure AD, where either the address or the `preferred_username` may match |
| `AzureGate.MemberIds` | src/features/auth/auth-api.ts:66-70 | the ids to match are the returned `value` (empty when absent) plus the `oid` when it is truthy, and nothing else |
| `AzureGate.DecideAllowed` | src/features/auth/auth-api.ts:46-86 | the hook's flag-and-loop procedure with `break` allows exactly when the intersection predicate `Allowed` holds, and makes the Graph call exactly when the list is set and non-empty |
| `AzureGate.OpenWhenUnconfigured` | src/features/auth/auth-api.ts:46-47 | with the list unset or empty, access is allowed whatever the Graph outcome |
| `AzureGate.FailClosed` | src/features/auth/auth-api.ts:49-85 | with a non-empty list, a non-OK response or a thrown error denies |
| `AzureGate.SelfAllow` | src/features/auth/auth-api.ts:66-72 | a user whose own non-empty `oid` is listed is allowed on any OK response, even with `value` missing or empty |
| `AzureGate.EmptyOidNotAppended` | src/features/auth/auth-api.ts:67-70 | an empty `oid` is falsy and adds nothing to the ids |
| `AzureGate.GroupAllow` | src/features/auth/auth-api.ts:71-76 | a listed group that Graph returns admits the user |
| `AzureGate.ScenarioOtherGroupDenied` | src/features/auth/auth-api.ts:64-77 | list `grp-123`, Graph returns `grp-999`, user `u-1`: denied |
| `AzureGate.ScenarioSelfAllowed` | src/features/auth/auth-api.ts:64-77 | list `u-1`, the same response: allowed through the user's own id |
| `Profiles.GitHubProfileHook` | src/features/auth/auth-api.ts:17-24 | a GitHub user is always allowed, keeps the profile's id and address, and is an admin exactly by the e-mail rule |
| `Profiles.AzureADUser` | src/features/auth/auth-api.ts:87-93 | an Azure AD user's id is `sub`, `isAllowed` is the gate's decision, and `isAdmin` is undefined exactly when the list is unset and otherwise follows the two-identifier rule |
| `Profiles.AzureADProfileHook` | src/features/auth/auth-api.ts:45-95 | the hook as it runs builds exactly that user record, and calls Graph exactly when the check is on |
| `Profiles.AdminAndAllowOrthogonal` | src/features/auth/auth-api.ts:87-93 | `isAdmin` depends on neither the allowed-principals list nor Graph; `isAllowed` depends on neither the admin list nor the addresses |
| `Profiles.ScenarioAdminDenied` | src/features/auth/auth-api.ts:78-91 | a listed admin whose Graph call throws is an admin and is denied |
| `Profiles.ScenarioAdminAllowed` | src/features/auth/auth-api.ts:46-91 | a listed admin with no allowed-principals list is an admin and is allowed |
| `Registry.ConfigureIdentityProvider` | src/features/auth/auth-api.ts:6-100 | GitHub is registered exactly when both of its credentials are set, and Azure AD exactly when all three of its credentials are set, GitHub first; both capture the lists parsed from the environment |
| `Callbacks.JwtAdmin` | src/features/auth/auth-api.ts:106-111 | the token's flag becomes truthy exactly when it was truthy or the user is an admin; otherwise it is left as it was |
| `Callbacks.JwtIdempotent` | src/features/auth/auth-api.ts:106-111 | running `jwt` twice with the same user equals running it once |
| `Callbacks.JwtNeverClearsAdmin` | src/features/auth/auth-api.ts:106-111 | once true, the token's flag stays true through any run of later `jwt` calls, with or without a user |
| `Callbacks.Jwt` | src/features/auth/auth-api.ts:106-111 | the callback updates the token in place to the flag `JwtAdmin` gives, keeps its other claims and returns it |
| `Callbacks.SessionCallback` | src/features/auth/auth-api.ts:112-115 | the session's user takes the token's flag; the rest of the session and the whole token are unchanged |
| `Callbacks.SignIn` | src/features/auth/auth-api.ts:116-118 | the user is admitted exactly when `isAllowed` holds |
| `Callbacks.GitHubAlwaysSignsIn` | src/features/auth/auth-api.ts:17-118 | every GitHub user is admitted |
| `Callbacks.AzureADSignIn` | src/features/auth/auth-api.ts:45-118 | an Azure AD user is admitted exactly when the gate allows: always when the check is off, never after a failed or non-OK Graph call when it is on |

## Left out

- The HTTP call to Microsoft Graph, `response.json()`, `response.text()` and
  JSON decoding are foreign I/O. Only their outcome, `GraphOutcome`, is
  modelled. A 2xx body whose `value` is an array of strings, or is absent
  or null, maps to `Ok`. Other shapes of `value` are not modelled. An array
  holding non-strings, such as `[null, "grp-123"]`, is searched as it is.
  A string `value` is searched with `String.prototype.includes` when `oid`
  is falsy, which is a substring match. If `oid` is truthy, `push` on the
  string throws. A `null` body throws on `.value` and maps to `Threw`. A
  number, string or boolean body has no `value` and maps to `Ok(None)`.
- The read of a non-OK response body (`response.text()`) before the hook
  throws is folded into `NotOk`. Whatever the read does, including throwing
  itself, the access is denied, so its outcome cannot change the decision.
- `async`/`await`: the model is sequential.
- NextAuth itself: `NextAuth(options)`, the `GitHubProvider` and
  `AzureADProvider` factories and the OAuth scope string are library code.
  A registered provider is a record of its credentials and of the lists its
  hook closes over.
- `process.env` reads are parameters (`Registry.Env`).
- `console.log` of the caught error, `NEXTAUTH_SECRET` and the `jwt`
  session strategy are logging and configuration only.
- Text.ToLower: maps only ASCII letters, not the full Unicode `toLowerCase`.
- Text.Trim: uses the fixed ECMAScript whitespace code points.
- A missing `email` or `preferred_username` cannot be represented: both
  fields are always present in the profile datatypes. The model therefore
  has no case for a profile without an e-mail that is admitted with
  `isAdmin` undefined when ADMIN_EMAIL_ADDRESS is unset. It also has no
  case for the crash when the list is set and a field that is read is
  missing.
- Profile fields that the hooks copy through the spread, other than `id` and
  `email`, are not modelled. GitHub's numeric `id` is an opaque string here.
- The `as string` cast in `session` changes nothing at run time and is not
  modelled.
