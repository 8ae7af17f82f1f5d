# lai-laravel authentication API, modelled in Dafny

This project models the small amount of logic that lai-laravel writes itself. Everything else comes from Laravel, Fractal, JWTAuth, Socialite and Eloquent, which the model treats as abstract collaborators.

- **The JSON envelope builder of `ApiController`.**
  - A status-code register starts at 200.
  - The `CODE_*` reason-phrase table.
  - `respondWithError` and `respondWithSuccess`.
  - Every `error*` and `success*` helper.
  - Each helper builds a one-key `error` or `success` envelope. The envelope holds `code` and `http_code`, and `http_code` mirrors the register.
  - A transformed resource is joined with PHP's left-biased array union `+`.
- **The API `AuthController`.**
  - The registration validator and `create`.
  - The throttled `login` flow: validation, then the lockout check, then the credential attempt, then clearing the counter or incrementing it.
  - `register` and `logout`.
- **The web `AuthController`.**
  - The provider allow-list.
  - `redirectToProvider`.
  - The social `handleProviderCallback`: find or create the user, link the provider id only when it is unset, log in and redirect.
- **The API `PasswordController`'s four reset response mappers.**
- **The `UserTransformer`, `SuccessTransformer` and `ErrorTransformer`.**

Everything is a pure function over immutable data.

- PHP ordered arrays are sequences of key/value pairs (`PhpArray`).
- The controller's register is a `Controller` value.
- A response is an `Emitted` value: the register after the call, the transport status and body, and whether the 200-warning was raised.
- The user store, the throttle counters and the session guard form a `World`. It is threaded through every call.
- Credential checking, hashing, token issuing, the validator's email-format test, translated messages, the lockout limit and Fractal's `toArray` are function-valued fields of `Services`. Nothing is assumed about them.

Files:

| file | module | contents |
|---|---|---|
| wrappers.dfy | Wrappers | `Option` |
| php_array.dfy | PhpArray | values, ordered arrays, `Put` (`$a[$k] = $v`), `Union` (`+`) |
| users.dfy | Users | the `users` row and the store keyed by email |
| transformers.dfy | Transformers | the three transformers |
| api.dfy | Api | `ApiController` |
| registration.dfy | Registration | the registration rules and `create` shared by both AuthControllers |
| collaborators.dfy | Collaborators | the abstract services and the threaded `World` |
| api_auth.dfy | ApiAuth | the API `AuthController` |
| password.dfy | Password | the API `PasswordController` |
| social.dfy | Social | the web `AuthController` |

Where the source's own comments and its code disagree, the model follows the code:

- The docblocks of `successUpdated`, `successDeleted` and `successAuth` (app/Http/Controllers/Api/ApiController.php:286, 297 and 308) announce a 201 response. Their code sets 202 and sends `'202 Accepted'`, and so does the model. `successCreated` really does give 201 and `'201 Created'`.
- The reason phrases are kept exactly as written, including `'300 Multiple Choice'` and `'Request Time-out'`.
- `exit()` in the provider guard is an `Aborted` outcome.

## Model

| member | source | states |
|---|---|---|
| PhpArray.Put | app/Transformers/SuccessTransformer.php:20 | `$data[$key] = $value` makes the key read the new value and leaves every other key as it was. An existing key keeps its position; a new key is appended at the end. |
| PhpArray.Union | app/Http/Controllers/Api/ApiController.php:200 | The array `+` keeps the left operand as a prefix, followed by entries of the right operand in the right operand's order. Its keys are those of either side. Every lookup prefers the left side. Distinct keys stay distinct. |
| PhpArray.UnionIsLeftBiased | app/Http/Controllers/Api/ApiController.php:200 | `a + (b without a's keys)` meets the left-biased union law, including the order of the entries taken from `b`. |
| PhpArray.WithoutSubsequence | app/Http/Controllers/Api/ApiController.php:200 | Dropping the right operand's keys that the left one already has keeps the remaining entries in their original order. |
| PhpArray.SubsequenceUnique | app/Http/Controllers/Api/ApiController.php:200 | Two order-preserving selections from one array with distinct keys that hold the same keys are equal. |
| PhpArray.LeftBiasedUnique | app/Http/Controllers/Api/ApiController.php:200 | When the right operand has distinct keys, the left-biased union law admits exactly one result. So the key order of a merged envelope is fixed whenever the serialized resource, like every PHP array, repeats no key. |
| PhpArray.SuffixAvoids | app/Http/Controllers/Api/ApiController.php:200 | No entry after the left operand repeats one of its keys, so `$a + $b` never holds a key twice that `$a` already has. |
| PhpArray.SubsequenceDistinct | app/Http/Controllers/Api/ApiController.php:200 | Entries taken in order from an array with distinct keys have distinct keys. |
| PhpArray.LeftBiasedDistinct | app/Http/Controllers/Api/ApiController.php:200 | A left-biased union of two arrays with distinct keys repeats no key. |
| PhpArray.LookupAt | app/Http/Controllers/Api/ApiController.php:200 | Reading a key finds the value of its first entry. |
| PhpArray.UnionEmpty | app/Http/Controllers/Api/ApiController.php:200 | Adding an empty resource leaves the fixed block unchanged. |
| Transformers.CopyEachAppends | app/Transformers/SuccessTransformer.php:17-21 | The `foreach` copy appends the entries in their input order. Nothing is added or reordered. |
| Transformers.CopyEachIdentity | app/Transformers/ErrorTransformer.php:17-21 | Copying into an empty array gives back exactly the input. |
| Transformers.CopyEach | app/Transformers/SuccessTransformer.php:17-21 | The `foreach` copy leaves keys it does not copy as they were. When the copied keys are distinct, each reads its entry's value afterwards. |
| Transformers.UserTransform | app/Transformers/UserTransformer.php:16-25 | The only top-level key is `user`. It maps to an array with exactly the keys `id`, `name`, `email`, in that order, each equal to the record's field. |
| Transformers.UserTransformDropsSecrets | app/Transformers/UserTransformer.php:18-24 | Two records that agree on id, name and email give the same output. The digest and the provider ids never appear. |
| Transformers.SuccessTransform | app/Transformers/SuccessTransformer.php:15-24 | The only top-level key is `successes`. It holds the input entries unchanged. |
| Transformers.SuccessTransformCopies | app/Transformers/SuccessTransformer.php:17-23 | Under `successes`, the keys are exactly the input's keys in input order, and every value is unchanged. Empty input gives `successes => []`. |
| Transformers.ErrorTransform | app/Transformers/ErrorTransformer.php:15-24 | The only top-level key is `errors`. It holds the input entries unchanged. |
| Transformers.ErrorTransformCopies | app/Transformers/ErrorTransformer.php:17-23 | Under `errors`, the keys are exactly the input's keys in input order, and every value is unchanged. Empty input gives `errors => []`. |
| Users.SetProviderId | app/Http/Controllers/Auth/AuthController.php:138 | Writing `<provider>_id` sets that column only. The id, name, email, password and the other provider's id keep their values. |
| Users.Insert | app/Http/Controllers/Api/Auth/AuthController.php:84-88 | `User::create` adds exactly one row under the new email with the given name, email and digest. The new row has a fresh id and no provider ids. Existing rows are untouched and the store stays well formed. |
| Users.Save | app/Http/Controllers/Auth/AuthController.php:139 | `save()` replaces that user's row. The set of rows and every other row are unchanged. |
| Api.CodeTableConsistent | app/Http/Controllers/Api/ApiController.php:17-57 | Every `CODE_*` string starts with its own three-digit status followed by a space. |
| Api.InformationalCodesMatch | app/Http/Controllers/Api/ApiController.php:17-18 | The 1xx phrases begin with 100 and 101. |
| Api.SuccessfulCodesMatch | app/Http/Controllers/Api/ApiController.php:19-25 | The 2xx phrases begin with 200 to 206. |
| Api.RedirectionCodesMatch | app/Http/Controllers/Api/ApiController.php:26-32 | The 3xx phrases begin with 300 to 305 and 307. |
| Api.ClientErrorCodesMatch | app/Http/Controllers/Api/ApiController.php:33-51 | The 4xx phrases begin with 400 to 417 and 422. |
| Api.ClientErrorCodesTo409Match | app/Http/Controllers/Api/ApiController.php:33-42 | The 4xx phrases from 400 to 409 begin with their own numbers. |
| Api.ClientErrorCodesFrom410Match | app/Http/Controllers/Api/ApiController.php:43-51 | The 4xx phrases from 410 to 417, and 422, begin with their own numbers. |
| Api.ServerErrorCodesMatch | app/Http/Controllers/Api/ApiController.php:52-57 | The 5xx phrases begin with 500 to 505. |
| Api.SetStatusCode | app/Http/Controllers/Api/ApiController.php:89-93 | After `setStatusCode(s)`, `getStatusCode()` returns `s`. |
| Api.GetStatusCode | app/Http/Controllers/Api/ApiController.php:77-80 | `getStatusCode()` reads the register, and the register is the controller's whole state. |
| Api.StatusRegister | app/Http/Controllers/Api/ApiController.php:14-93 | The register starts at 200, the last write wins, and writing the current value changes nothing. The register is the controller's only state. |
| Api.StatusBlock | app/Http/Controllers/Api/ApiController.php:322-327 | The fixed block lists `code`, `http_code`, then the helper's extra keys. `code` and `http_code` hold the given values. |
| Api.Merge | app/Http/Controllers/Api/ApiController.php:194-200 | The fixed block is a left-biased union with the transformed resource. `code`, `http_code` and the extra fields win over resource keys of the same name, and no resource entry repeats one of them. When the extra fields and the resource repeat no key, neither does the result. |
| Api.Wrap | app/Http/Controllers/Api/ApiController.php:333-335 | `$response[key] = fields`: one top-level key whose value is exactly the fields, sent with the register as status. |
| Api.RespondWithError | app/Http/Controllers/Api/ApiController.php:154-170 | The warning is raised exactly when the register is 200. Either way, an `error` envelope with exactly `code`, `http_code` (the register) and `message` is produced, and the register is not changed. |
| Api.RespondWithSuccess | app/Http/Controllers/Api/ApiController.php:179-204 | With no item, the `success` envelope has exactly `code`, `http_code` and `message`. With an item, the block is a left-biased union with the transformed item, so the fixed fields win and are not repeated. When the transformed item repeats no key, neither do the fields sent. `http_code` is the register either way. |
| Api.ErrorBadRequest | app/Http/Controllers/Api/ApiController.php:211-215 | 400 in register, transport and `http_code`, with `'400 Bad Request'` and the message. The phrase begins with that status number. |
| Api.ErrorUnauthorized | app/Http/Controllers/Api/ApiController.php:222-226 | 401 with `'401 Unauthorized'` and the message. The phrase begins with that status number. |
| Api.ErrorForbidden | app/Http/Controllers/Api/ApiController.php:233-237 | 403 with `'403 Forbidden'` and the message. The phrase begins with that status number. |
| Api.ErrorUnprocessableEntity | app/Http/Controllers/Api/ApiController.php:257-261 | 422 with `'422 Unprocessable Entity'` and the message. The phrase begins with that status number. |
| Api.ErrorInternalServerError | app/Http/Controllers/Api/ApiController.php:268-272 | 500 with `'500 Internal Server Error'` and the message. The phrase begins with that status number. |
| Api.SuccessCreated | app/Http/Controllers/Api/ApiController.php:279-283 | 201 with `'201 Created'`. The message and the optional item follow `respondWithSuccess`. The phrase begins with that status number. |
| Api.SuccessUpdated | app/Http/Controllers/Api/ApiController.php:290-294 | 202 with `'202 Accepted'`. The message and the optional item follow `respondWithSuccess`. The phrase begins with that status number. |
| Api.SuccessDeleted | app/Http/Controllers/Api/ApiController.php:301-305 | 202 with `'202 Accepted'` and exactly `code`, `http_code`, `message`. |
| Api.SuccessAuth | app/Http/Controllers/Api/ApiController.php:316-336 | 202 `success` envelope. `code`, `http_code`, `redirectTo` and `token` come first, win over the transformed user's keys and are not repeated after it. When the transformed user repeats no key, neither do the fields sent. |
| Api.AuthFields | app/Http/Controllers/Api/ApiController.php:322-333 | The fields of `successAuth`: the fixed block with `redirectTo` and `token`, left-biased over the resource, with no key twice when the resource has none twice. |
| Api.ErrorAuth | app/Http/Controllers/Api/ApiController.php:345-363 | 422 `error` envelope. `code` and `http_code` come first, left-biased over the transformed errors, and are not repeated. When the transformed errors repeat no key, neither do the fields sent. |
| Api.ErrorAuthFixedKeysOnce | app/Http/Controllers/Api/ApiController.php:345-363 | Whatever the transformed errors hold, `code` and `http_code` are the first two fields and appear nowhere else. |
| Api.SuccessLogout | app/Http/Controllers/Api/ApiController.php:371-386 | 202 `success` envelope with exactly `code`, `http_code` and `redirectTo`. |
| Api.SuccessPassword | app/Http/Controllers/Api/ApiController.php:395-413 | 202 `success` envelope, left-biased over the transformed successes, which cannot repeat `code` or `http_code`. When the transformed successes repeat no key, neither do the fields sent. |
| Api.ErrorPassword | app/Http/Controllers/Api/ApiController.php:422-440 | 422 `error` envelope, left-biased over the transformed errors, which cannot repeat `code` or `http_code`. When the transformed errors repeat no key, neither do the fields sent. |
| Api.WarningOnlyOnDefaultStatus | app/Http/Controllers/Api/ApiController.php:154-215 | Calling `respondWithError` on a fresh controller warns. The helpers set a non-200 status first, so they never warn. |
| Registration.NameErrors | app/Http/Controllers/Api/Auth/AuthController.php:70 | `name` fails exactly when it is not filled or is longer than 255 characters. `required` is among the failures exactly when it is not filled. |
| Registration.EmailErrors | app/Http/Controllers/Api/Auth/AuthController.php:71 | `email` fails exactly when it is not filled, not well formed, longer than 255 characters or already stored. `required` fails exactly when it is not filled. `unique` is reported exactly when the address is filled, well formed, short enough and already stored. |
| Registration.PasswordErrors | app/Http/Controllers/Api/Auth/AuthController.php:72 | `password` fails exactly when it is not filled, shorter than 6 characters or unequal to its confirmation. `confirmed` is reported exactly when it is filled but the confirmation is missing or different. |
| Registration.Validate | app/Http/Controllers/Api/Auth/AuthController.php:67-74 | No errors exactly when every rule of the three fields holds. Otherwise each failing field is listed once, in the order name, email, password. Its entry is under its own name and holds exactly that field's failed rules. A field that passes has no entry. An email already in the store always fails. |
| Registration.JoinedEntries | app/Http/Controllers/Api/Auth/AuthController.php:69-73 | Joining the per-field entries lists each failing field once, in rule order, under its own name with its own rules, and omits the fields with no failures. |
| Registration.Joined | app/Http/Controllers/Api/Auth/AuthController.php:69-73 | The joined entries are empty exactly when no field failed. Each failing field appears once, in the order name, email, password, under its own name with its own rules, and a field that passed is absent. |
| Registration.FormatErrors | app/Http/Controllers/Api/Auth/AuthController.php:195 | Each failing field, in the validator's order, becomes one entry under its own name listing its messages, one per failed rule in rule order. |
| Registration.FormatErrorsDistinct | app/Http/Controllers/Api/Auth/AuthController.php:195 | The formatted errors have one key per failing field. |
| Registration.FormatErrorsLookup | app/Http/Controllers/Api/Auth/AuthController.php:195 | Read by key, the formatted errors give each failing field its list of messages, and a key that is not a failing field reads nothing. |
| Registration.ValidationMessages | app/Http/Controllers/Api/Auth/AuthController.php:185-197 | The errors `register` sends hold under `name`, `email` and `password` exactly the messages of that field's failed rules, and nothing for a field that passed. |
| Registration.Create | app/Http/Controllers/Api/Auth/AuthController.php:82-89 | Exactly one new row holding the name, the email and the digest of the password. Nothing else changes. |
| ApiAuth.MissingLoginFields | app/Http/Controllers/Api/Auth/AuthController.php:99 | Login validation passes exactly when both the email and the password are filled. |
| ApiAuth.Lower | app/Http/Controllers/Api/Auth/AuthController.php:101-106 | The login name in the throttle key has the same letters with every upper-case ASCII letter made lower-case: same length, each character a case variant of the original, and no upper-case ASCII letter left. |
| ApiAuth.LowerIdempotent | app/Http/Controllers/Api/Auth/AuthController.php:101-106 | Lower-casing an already lower-cased name changes nothing. |
| ApiAuth.LowerSameIff | app/Http/Controllers/Api/Auth/AuthController.php:101-106 | Two names lower-case alike exactly when they differ only in the case of ASCII letters. |
| ApiAuth.ThrottleKeyOf | app/Http/Controllers/Api/Auth/AuthController.php:101-106 | The throttle key holds the client address and the login name with no upper-case ASCII letter, a case variant of the name submitted. |
| ApiAuth.ThrottleKeyCaseBlind | app/Http/Controllers/Api/Auth/AuthController.php:101-106 | Two login requests share a counter exactly when they come from the same address with the same email up to ASCII case. |
| ApiAuth.Authenticates | app/Http/Controllers/Api/Auth/AuthController.php:114 | In a well-formed store, the guard accepts the credentials exactly when some stored row has the submitted email and its digest matches the password. |
| ApiAuth.Remember | app/Http/Controllers/Api/Auth/AuthController.php:114 | `has('remember')` holds exactly when the field is present and not blank. |
| ApiAuth.LoginClaims | app/Http/Controllers/Api/Auth/AuthController.php:117 | The token's custom claims hold the single key `remember`, with that flag. |
| ApiAuth.SendFailedLoginResponse | app/Http/Controllers/Api/Auth/AuthController.php:162-175 | A 422 `errorAuth` whose errors hold only the `email` key with the fixed failure message. |
| ApiAuth.HandleUserWasAuthenticated | app/Http/Controllers/Api/Auth/AuthController.php:140-155 | The throttle counter is cleared, and the answer is `successAuth` to `/home` with the token and the transformed user. |
| ApiAuth.LoginStores | app/Http/Controllers/Api/Auth/AuthController.php:97-130 | Before the credential attempt, nothing changes: invalid input or a lockout leaves the stores untouched. A failed attempt adds exactly one to the counter. A successful one clears it and logs the user in. |
| ApiAuth.Login | app/Http/Controllers/Api/Auth/AuthController.php:97-130 | Checks run in this order: validation, then lockout, then credentials. A failure gives the 422 failure envelope. A success gives `successAuth` with the token issued for that user with the `remember` claim. |
| ApiAuth.LoginUpdatesStores | app/Http/Controllers/Api/Auth/AuthController.php:106-127 | `login` changes the stores exactly as `LoginStores` says. |
| ApiAuth.FailedLoginUniform | app/Http/Controllers/Api/Auth/AuthController.php:170-174 | The failure answer is the same for any stores and any credentials, so it does not reveal whether the account exists. |
| ApiAuth.FailuresAccumulate | app/Http/Controllers/Api/Auth/AuthController.php:125-127 | Below the limit, `n` wrong attempts add exactly `n` to the counter and touch neither the users nor the session. |
| ApiAuth.LockedOutAfterMaxFailures | app/Http/Controllers/Api/Auth/AuthController.php:106-127 | After `max` wrong attempts from a zero counter, with the limit first reached at `max`, even correct credentials for the same key are locked out. |
| ApiAuth.Register | app/Http/Controllers/Api/Auth/AuthController.php:183-207 | Invalid input gives a 422 `errorAuth` with the formatted errors and no change to the stores. Valid input adds exactly one user with the name and the hashed password. That user is logged in and answered with `successAuth` and a token for them. |
| ApiAuth.ValidatedInput | app/Http/Controllers/Api/Auth/AuthController.php:185-201 | A request that passes validation carries `name`, `email` and `password`, and its email is not yet stored. |
| ApiAuth.Admit | app/Http/Controllers/Api/Auth/AuthController.php:201-207 | The success branch adds exactly one row under the email, with the name and the hashed password, keeps every other row, logs that user in and answers `successAuth` with a token for them. |
| ApiAuth.Logout | app/Http/Controllers/Api/Auth/AuthController.php:214-221 | The session forgets its user. The answer is always a 202 `successLogout` to `redirectAfterLogout`, or `/` when it is not set. |
| ApiAuth.LogoutIdempotent | app/Http/Controllers/Api/Auth/AuthController.php:214-221 | Logging out twice leaves the same stores and gives the same response. |
| Password.BrokerErrors | app/Http/Controllers/Api/Auth/PasswordController.php:94-96 | The failure errors have the single key `email`, holding the broker's message. |
| Password.SendResetLinkEmailSuccessResponse | app/Http/Controllers/Api/Auth/PasswordController.php:65-78 | A 202 `success` envelope, left-biased over the SuccessTransformer output of `{status: message}`. |
| Password.SendResetLinkEmailFailureResponse | app/Http/Controllers/Api/Auth/PasswordController.php:86-99 | A 422 `error` envelope over the ErrorTransformer output of `{email: message}`. |
| Password.ResetSuccessResponse | app/Http/Controllers/Api/Auth/PasswordController.php:107-120 | `successAuth` to `/home` with a token issued for the current user, and that user transformed. |
| Password.ResetFailureResponse | app/Http/Controllers/Api/Auth/PasswordController.php:130-143 | A 422 `error` envelope over `{email: message}`. |
| Password.ResetResponsesSeparate | app/Http/Controllers/Api/Auth/PasswordController.php:77-142 | Both success mappers give `success` and 202. Both failure mappers give `error` and 422, and their responses are identical. |
| Password.ResetSuccessIgnoresMessage | app/Http/Controllers/Api/Auth/PasswordController.php:107-120 | The reset-success answer does not depend on the broker's message. |
| Social.ProviderNamed | app/Http/Controllers/Auth/AuthController.php:41 | A provider is recognised exactly when its name is in `['facebook', 'google']`. `facebook` names Facebook and `google` names Google, and no other name names either. |
| Social.ProviderColumn | app/Http/Controllers/Auth/AuthController.php:137-138 | The column the callback reads and writes for a recognised provider is the route segment followed by `_id`. |
| Social.RefusedIffUnknown | app/Http/Controllers/Auth/AuthController.php:92 | The guard `!$provider or not in the list` refuses exactly the names outside the allow-list. |
| Social.RedirectToProvider | app/Http/Controllers/Auth/AuthController.php:90-97 | Aborts exactly when the guard refuses. Otherwise it hands over to the named provider. |
| Social.FindByEmail | app/Http/Controllers/Auth/AuthController.php:114 | A null email finds nothing. In a well-formed store, a row is found exactly when some stored row has that email, and the row found is a stored row with that email. |
| Social.SocialInput | app/Http/Controllers/Auth/AuthController.php:117-124 | The synthesized request carries the profile's name and email, and the same generated password as both `password` and `password_confirmation`. |
| Social.Link | app/Http/Controllers/Auth/AuthController.php:137-140 | The provider id is written only when unset. An existing id is kept. No other field or row changes. |
| Social.Complete | app/Http/Controllers/Auth/AuthController.php:137-144 | After linking, that user is logged in and the answer redirects to `/home`. The set of rows and the id counter are unchanged, and every other row is as it was. |
| Social.Enrol | app/Http/Controllers/Auth/AuthController.php:134-144 | `create` then link: exactly one row is added under the profile's email, with its name, the hashed generated password and only this provider's id. Every existing row is kept, and the new user is logged in and redirected to `/home`. |
| Social.ValidatedProfile | app/Http/Controllers/Auth/AuthController.php:119-132 | A synthesized request that meets every validation rule came from a profile with both a name and an email. |
| Social.SignUp | app/Http/Controllers/Auth/AuthController.php:116-144 | For an unknown email, a validation exception is thrown exactly when the synthesized request fails validation, carrying those errors and changing nothing. Otherwise the user is added as `Enrol` says. |
| Social.Callback | app/Http/Controllers/Auth/AuthController.php:112-144 | For an allowed provider: a found user is linked with every other row kept; an unknown email throws exactly when validation fails and otherwise adds the user. Every non-throwing path logs in and redirects to `/home`. |
| Social.HandleProviderCallback | app/Http/Controllers/Auth/AuthController.php:106-145 | A refused provider aborts with the stores untouched. A found user is linked, with every other row unchanged and no row added. When no user is found, a validation exception is thrown exactly when the synthesized request fails validation. In that case nothing changes. Otherwise exactly one user is added, with the profile's name and email, the hashed generated password and this provider's id, and every existing row is untouched. The user is logged in and the answer redirects to `/home`. |
| Social.SocialPasswordConfirmed | app/Http/Controllers/Auth/AuthController.php:117-124 | The `confirmed` rule can never fail on the synthesized request. |
| Social.SocialEmailUnique | app/Http/Controllers/Auth/AuthController.php:114-116 | When no row has the profile's email, `unique` cannot fail either. |
| Social.SocialPasswordPasses | app/Http/Controllers/Auth/AuthController.php:117 | A digest of at least 6 non-blank characters (bcrypt's 60) passes every password rule. |

## Left out

- Api.RespondWithSuccess: `None` stands for every PHP-falsy `$item` (`null`, `false`, `0`, `''`, `'0'`, `[]`), which takes the no-item branch. A `Some` item is always merged, so a falsy value must be passed as `None`. The model does not derive this from the value itself, because an item is an opaque value with a transformer.
- The default messages of the `error*` and `success*` helpers (`'Bad Request'`, `'The resource has been created with success!'` and so on, app/Http/Controllers/Api/ApiController.php:211-301) are not modelled. Every helper takes its message explicitly.
- Fractal's `createData(...)->toArray()` serializer nesting and `parseIncludes` (the constructor of `ApiController`) are not modelled. `toArray` is an unconstrained function of the transformer's output.
- The `$callback = null` default of `successCreated` and `successUpdated` (app/Http/Controllers/Api/ApiController.php:279 and 290) is not modelled. An `Item` always carries its transformer, so a truthy item with no callback cannot be written.
- `respondWithItem` and `respondWithCollection` are left out. No operation in this model calls them, and they only pass a Fractal scope to `respondWithArray`.
- `errorResourceNotFound` is commented out in the source, so there is no 404 helper to model. `CODE_NOT_FOUND` is still in the table.
- `Response::make`, `json_encode`, the `Content-Type` header and the `Input` facade are not modelled. A response is its status and its array.
- `trigger_error` is recorded as the `warned` flag. PHP's error handler is not modelled.
- Middleware (`guest`, `cors`), sessions and the guard's internals are not modelled. The guard is the email of the logged-in user or `None`.
- ThrottlesLogins' maximum attempts and decay window are not modelled. `hasTooManyLoginAttempts` is an abstract predicate on the counter. The lockout event, the lockout response body and the counter's expiry are not modelled.
- The framework's `validateLogin` failure response is not modelled. The model returns the list of missing fields.
- The lockout response is not modelled. The model returns a bare `LockedOut`.
- bcrypt, `uniqid`, JWT signing and `fromUser` are abstract. A token is `token(user, claims)`, and registration and password reset use empty claims.
- The Socialite OAuth exchange is not modelled. The provider's profile is a parameter.
- Eloquent is not modelled. The store is a map keyed by email, which stands in for the unique index.
- The email-format rule is an abstract predicate.
- `trans()` is the identity. Validation messages come from an abstract `message(field, rule)`.
- A `null` name or email in the synthesized social request is modelled as an absent field. Both fail `required` the same way.
- Rows with a NULL email are not modelled. Every stored row has an email, so a lookup by a missing email finds nothing.
- The password broker, which sends the mail and resets the password, is not modelled. The mappers receive its message, and the reset success receives the user it has logged in.
- ApiAuth.Lower: covers ASCII letters only; `mb_strtolower` also folds non-ASCII letters.
- `handleUserWasAuthenticated`'s `authenticated` hook is not modelled, because the controller defines none.
- `app/Http/routes.php` only declares routes and middleware, so it is not modelled.
