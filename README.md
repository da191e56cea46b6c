# R2R authentication provider — a Dafny model

This project models the credential-and-token decision logic of `R2RAuthProvider`
(`py/core/providers/auth/r2r_auth.py`). That class issues, verifies and revokes
access and refresh tokens. It authenticates API keys, and it resolves a bearer
string to a user, first as a token and then as an API key. It also runs the
account flows: registration, email verification, login, password change and
reset, and logout.

The model takes its shape from the source:

- `auth_types.dfy` (`AuthTypes`) holds the shared values. Each `R2RException` is an
  `AuthError(status, message)` with the source's status code and message. A
  `Result` is either `Ok` or one such error. User, API-key and one-time-code
  records, token claims and the token pair are datatypes too. The credential
  cipher is a `Cipher` datatype of arbitrary functions, so its verdicts are
  deterministic and nothing else is assumed about them. The lemmas that need
  the cipher to verify its own signature say so with `SignsFaithfully`, for one
  claim set at a time.
- `text.dfy` (`Text`) models the string operations the source uses. It covers
  `split(".", 1)` with its `ValueError` on no separator, `split(" ")[0]`,
  `removeprefix` and the `first_name` derivation.
- `tokens.dfy` (`Tokens`) holds token lifetimes, issuance, `decode_token`, and
  refresh rotation as a function from the old blacklist to a reply and the new
  blacklist.
- `directory.dfy` (`Directory`) holds the lookups and updates the provider asks
  the directory store for, on map snapshots of the user and code tables.
- `api_keys.dfy` (`ApiKeys`) holds `authenticate_api_key` and the owner-scoped
  key-table updates.
- `resolver.dfy` (`Resolver`) holds `user`, with its token-then-API-key
  fallback, and `get_current_active_user`.
- `accounts.dfy` (`Accounts`) holds `login` and the reply rule of
  `request_password_reset`. Neither changes the store.
- `provider.dfy` (`Provider`) holds the class `AuthProvider`. Its fields are the
  token blacklist (`set<string>`), the user, verification-code, reset-token and
  API-key tables (`map`s), and the notifier's outbox (`seq<Email>`). Every
  state-changing method has field-level `modifies` frames and states its whole
  new state. `Valid()` states the store's integrity constraints, and every
  method keeps them.
- `scenarios.dfy` (`Scenarios`) holds client methods that use only the
  contracts. They cover register, a failed login, verify, then a successful
  login. They also cover a wrong current password that keeps the old one, two
  keys of which one is deleted, and a refresh repeated with the same token.

Time is an integer count of seconds (`now`). The clock, every random value (new
user ids, verification codes, reset tokens, API key ids and secrets, record ids)
and the configuration arrive as parameters. New user ids, public key ids and key
record ids carry a freshness `requires` (`Register`, `CreateUserApiKey`), as
the store's keys guarantee. Verification codes and reset tokens carry none: two
users may hold the same one, and `VerifyEmail` and `ConfirmPasswordReset` then
act on any live holder. Outgoing email is recorded in `outbox` rather than
sent.

The model follows the code in these places:

- When both paths of `user` fail, the caller receives the API-key path's own
  error (`ResolveUser`). This can be "Invalid API key format", "Invalid API
  key", "User account is inactive" or the store's 404. It is not one generic
  failure.
- `login` with an unknown email raises the store's 404 "User not found". A
  wrong password gives 401. The two cases can therefore be told apart
  (`Login`).
- The token path of `user` does not look at the active flag. Only the API-key
  path and `get_current_active_user` refuse inactive users (`ResolveByToken`).
- `verify_email` ignores its email argument. Whoever holds the code is
  verified (`AuthProvider.VerifyEmail`).
- `register` without required verification marks the stored user verified.
  The user object it returns was created before that, so it still reads as
  unverified (`AuthProvider.Register`).
- The default access lifetime is 3600 minutes, as the code has it. A lifetime
  configured as 0 falls back to the default, because Python's `or` treats 0 as
  unset.

Some store behaviour is not shown in the source, and the model takes these
positions on it:

- `get_user_by_email` and `get_user_by_id` return the user or raise 404 "User
  not found". The 404 is inferred from the handler in `request_password_reset`.
- `create_user` refuses a taken email with a 400 error. It creates an active,
  unverified user with no display name.
- A verification code or reset token resolves to a user only while
  `now <= expiry`. An unresolved verification code is a 400 error.
- A user holds at most one code of each kind, so storing a new one replaces
  the old one.
- API-key public ids are unique, and the key table is keyed by them.

## Model

| member | source | states |
|---|---|---|
| Text.PrefixBefore | py/core/providers/auth/r2r_auth.py:225-227 | `split(sep)[0]` is the longest `sep`-free prefix: a prefix, free of `sep`, and followed by `sep` unless it is the whole string |
| Text.SplitOnce | py/core/providers/auth/r2r_auth.py:127-131 | the split fails exactly when there is no "."; otherwise the input is head + "." + tail, and the head has no "." (the tail may have dots) |
| Text.SplitOnceJoin | py/core/providers/auth/r2r_auth.py:127 | splitting `keyId + "." + raw` with a dot-free `keyId` gives back exactly `(keyId, raw)` |
| Text.RemovePrefix | py/core/providers/auth/r2r_auth.py:181 | with the prefix present, prefix + result is the input; without it, the input is unchanged |
| Text.FirstName | py/core/providers/auth/r2r_auth.py:224-228 | the first space-separated word of a non-empty name, otherwise the email's local part, each characterised as the longest separator-free prefix |
| Tokens.AccessLifetime | py/core/providers/auth/r2r_auth.py:47-51 | the lifetime is never zero; a non-zero configured value in minutes is used as is; an absent or zero setting gives the default of 3600 minutes |
| Tokens.RefreshLifetime | py/core/providers/auth/r2r_auth.py:52-56 | the lifetime is never zero; a non-zero configured value in days is used as is; an absent or zero setting gives the default of 7 days |
| Tokens.IssuePair | py/core/providers/auth/r2r_auth.py:72-91 | the access token is signed with kind "access" and expiry now + access lifetime; the refresh token with kind "refresh" and its own lifetime |
| Tokens.DecodeToken | py/core/providers/auth/r2r_auth.py:93-119 | a blacklisted token is always "Token has been invalidated"; an unrevoked token the cipher rejects gets "Invalid or expired token"; an accepted token is unrevoked, its claims are exactly the cipher's complete payload, and it has not expired; every failure is one of the four 401 errors |
| Tokens.DecodeBlacklistFirst | py/core/providers/auth/r2r_auth.py:95-100 | a revoked token is refused the same way under any cipher and at any time, so the cipher is never consulted for it |
| Tokens.DecodeClaimsThenExpiry | py/core/providers/auth/r2r_auth.py:109-119 | a missing sub, token_type or exp is "Invalid token claims" whatever the time; otherwise "Token has expired" exactly when exp < now, and exp == now is accepted |
| Tokens.DecodeIssued | py/core/providers/auth/r2r_auth.py:72-119 | a faithfully signed, unrevoked token decodes to its own claims until its expiry, and is expired after it |
| Tokens.IssuedPairDecodes | py/core/providers/auth/r2r_auth.py:299-304 | both tokens of an issued pair decode, within their lifetimes, to the subject and the right kinds |
| Tokens.Refresh | py/core/providers/auth/r2r_auth.py:306-331 | the blacklist only grows; a failure leaves it unchanged; a decode error is passed on unchanged; a token that decodes as "refresh" always succeeds; a success revokes exactly the presented token, which was an unrevoked "refresh" token, and issues the pair for its subject |
| Tokens.RefreshIssued | py/core/providers/auth/r2r_auth.py:306-331 | the refresh token of an issued pair, unrevoked and within its lifetime, is exchanged: it is revoked and a new pair for the same subject is issued |
| Tokens.RefreshRejectsOtherKinds | py/core/providers/auth/r2r_auth.py:309-313 | a valid token of any kind other than "refresh" gets "Invalid refresh token" and is not revoked |
| Tokens.RefreshSingleUse | py/core/providers/auth/r2r_auth.py:315-318 | after one successful refresh, any later refresh with the same string, at any time, fails as invalidated |
| Tokens.RefreshKeepsSubject | py/core/providers/auth/r2r_auth.py:320-325 | the new access and refresh tokens decode to the refreshed token's own subject |
| Directory.UserByEmail | py/core/providers/auth/r2r_auth.py:262-264 | succeeds exactly when the email is stored, with that stored user; otherwise it gives the store's 404 |
| Directory.UserById | py/core/providers/auth/r2r_auth.py:146-148 | succeeds exactly when the id is stored, with that user; otherwise it gives 404 |
| Directory.EmailTaken | py/core/providers/auth/r2r_auth.py:194-196 | some stored user already has the email; `create_user` refuses to add a second user with it |
| Directory.Holds | py/core/providers/auth/r2r_auth.py:249-251 | the user holds the code and the code is live: `now` is at or before its expiry |
| Directory.CodeResolves | py/core/providers/auth/r2r_auth.py:401-407 | the code or reset-token lookup finds a user: some user holds the code and it is live |
| Directory.CodeSingleUse | py/core/providers/auth/r2r_auth.py:255-257 | after removal by value, the code resolves for nobody, at any time |
| Directory.SetPassword | py/core/providers/auth/r2r_auth.py:356-359 | only the one user's hash changes; ids and emails stay well formed |
| Directory.MarkVerified | py/core/providers/auth/r2r_auth.py:252-254 | only the one user's verified flag changes; ids and emails stay well formed |
| Directory.WithoutCode | py/core/providers/auth/r2r_auth.py:255-257 | exactly the holders of that code lose it; other codes are untouched |
| ApiKeys.AuthenticateApiKey | py/core/providers/auth/r2r_auth.py:121-154 | no "." gives "Invalid API key format"; an unknown public id and a bad secret both give "Invalid API key"; a success is the record's stored, active owner whose secret matched |
| ApiKeys.CompositeKey | py/core/providers/auth/r2r_auth.py:472 | the handed-out key is the public id, one ".", then the secret |
| ApiKeys.CompositeKeySplits | py/core/providers/auth/r2r_auth.py:127 | a composite key with a dot-free public id splits at its first "." back into exactly the public id and the secret |
| ApiKeys.ApiKeyRoundTrip | py/core/providers/auth/r2r_auth.py:127-152 | `keyId + "." + raw`, with a dot-free keyId and a matching secret, authenticates as the owner if active, and is "User account is inactive" otherwise |
| ApiKeys.UnknownKeyLooksLikeBadSecret | py/core/providers/auth/r2r_auth.py:138-144 | a wrong secret for a known id and any secret for an absent id give the identical error |
| ApiKeys.DropKey | py/core/providers/auth/r2r_auth.py:483-487 | removes exactly the caller's record with that id; another user's record is left alone, as if it were missing |
| ApiKeys.RenameKey | py/core/providers/auth/r2r_auth.py:489-496 | renames exactly the caller's record with that id; not owning it is the same as it being missing |
| ApiKeys.KeysOf | py/core/providers/auth/r2r_auth.py:478-481 | selects exactly the records the user owns, unchanged |
| ApiKeys.DropKeepsOthers | py/core/providers/auth/r2r_auth.py:483-487 | deleting one record leaves authentication with every other key unchanged |
| ApiKeys.RenameKeepsAuthentication | py/core/providers/auth/r2r_auth.py:489-496 | renaming changes no authentication outcome |
| Resolver.TokenUser | py/core/providers/auth/r2r_auth.py:161-177 | succeeds exactly when the token decodes to a non-empty subject that is a stored email, with that stored user |
| Resolver.ResolveUser | py/core/providers/auth/r2r_auth.py:156-182 | a success is a stored user; every failure is the verdict of the API-key path on the string without its "Bearer " prefix |
| Resolver.ResolveByToken | py/core/providers/auth/r2r_auth.py:161-177 | a decodable token with a stored, non-empty subject resolves to that user, whatever its active flag and whatever the key table holds |
| Resolver.ResolveFallsBack | py/core/providers/auth/r2r_auth.py:178-182 | any token-path failure, including an empty or unknown subject, yields exactly the API-key path's result on the prefix-stripped string |
| Resolver.RevokedTokenOnlyAsApiKey | py/core/providers/auth/r2r_auth.py:160-182 | a revoked token can only ever resolve as an API key |
| Resolver.ResolveIssuedApiKey | py/core/providers/auth/r2r_auth.py:178-182 | an issued key, with or without "Bearer ", resolves to its active owner when the string is not a token the cipher accepts |
| Resolver.GetCurrentActiveUser | py/core/providers/auth/r2r_auth.py:184-189 | passes the user through exactly when active, and otherwise gives 400 "Inactive user" |
| Accounts.Login | py/core/providers/auth/r2r_auth.py:260-304 | an unknown email gives the store's 404; a success means the password matched and the user is verified or verification is off, and the pair is issued for that email; only three errors are possible |
| Accounts.LoginPasswordFirst | py/core/providers/auth/r2r_auth.py:289-297 | a wrong password gives "Incorrect email or password" whatever the verified flag is set to |
| Accounts.LoginVerificationGate | py/core/providers/auth/r2r_auth.py:295-297 | with the right password, "Email not verified" occurs exactly when the user is unverified and verification is required, and nothing else fails |
| Accounts.LoginTokensDecode | py/core/providers/auth/r2r_auth.py:299-304 | the tokens of a successful login decode to the login email with kinds "access" and "refresh" |
| Accounts.ResetFailureReply | py/core/providers/auth/r2r_auth.py:389-396 | a 404 becomes the generic reply; any other error is raised again unchanged |
| Provider.NewUser | py/core/providers/auth/r2r_auth.py:194-196 | a created user is active, unverified and unnamed, with the given email, hash and superuser flag |
| Provider.AuthProvider.constructor | py/core/providers/auth/r2r_auth.py:32-57 | starts with an empty store that satisfies the integrity constraints |
| Provider.AuthProvider.Register | py/core/providers/auth/r2r_auth.py:191-244 | a taken email changes nothing; with verification required, the user stays unverified with a 24-hour code that is emailed; otherwise the sentinel "-1" code is stored and the stored user is verified |
| Provider.AuthProvider.VerifyEmail | py/core/providers/auth/r2r_auth.py:246-258 | an unresolved code changes nothing; otherwise the user holding the live code becomes verified and the code is cleared, whatever email was passed |
| Provider.AuthProvider.RefreshAccessToken | py/core/providers/auth/r2r_auth.py:306-331 | reply and new blacklist are those of `Refresh`; after a success the presented token never decodes again |
| Provider.AuthProvider.ChangePassword | py/core/providers/auth/r2r_auth.py:333-360 | a wrong current password leaves the user table unchanged; a right one replaces only that user's hash |
| Provider.AuthProvider.RequestPasswordReset | py/core/providers/auth/r2r_auth.py:362-396 | the reply is always the generic message; only a known email gets a one-hour reset token, which replaces any earlier one, and an email |
| Provider.AuthProvider.ConfirmPasswordReset | py/core/providers/auth/r2r_auth.py:398-419 | an unresolved token gives "Invalid or expired reset token" and changes nothing; otherwise its holder gets the new hash and loses the token |
| Provider.AuthProvider.Logout | py/core/providers/auth/r2r_auth.py:421-423 | the token joins the blacklist and never decodes again |
| Provider.AuthProvider.CreateUserApiKey | py/core/providers/auth/r2r_auth.py:456-476 | only the hash of the secret is stored; the returned `keyId "." raw` authenticates as the owner, or as inactive |
| Provider.AuthProvider.ListUserApiKeys | py/core/providers/auth/r2r_auth.py:478-481 | returns exactly the caller's records, each as stored, and changes nothing |
| Provider.AuthProvider.DeleteUserApiKey | py/core/providers/auth/r2r_auth.py:483-487 | true exactly when the caller owned the record; the table becomes `DropKey` of the old one |
| Provider.AuthProvider.RenameApiKey | py/core/providers/auth/r2r_auth.py:489-496 | true exactly when the caller owned the record; the table becomes `RenameKey` of the old one |

## Left out

- `py/core/providers/orchestration/hatchet.py` is not modelled. It is a thin wrapper over a workflow SDK, with no authentication logic.
- Cryptography is not modelled: token signing and verification, password and API-key hashing, and code and key generation. The cipher is a set of arbitrary functions. Generated values are parameters.
- Password hashing is a function of the password. The salt a real hash adds is not modelled.
- Database work in `register` is not modelled: creating the default collection and graph, and adding the user to it (lines 197-210). Neither are SQL and transactions.
- The cleanup sweep `clean_expired_blacklisted_tokens` is left out. It is delegated to the store. Because the model leaves it out, the model's blacklist only ever grows.
- `initialize` is left out. It is the one-off admin bootstrap at start-up, which calls `register`.
- `send_reset_email` is left out. It is not part of the modelled core.
- Email delivery, logging, the FastAPI dependency wiring and the asynchronous plumbing are left out. Emails the provider would send are recorded in `outbox`.
- Wall-clock arithmetic is replaced by integer seconds. The environment-variable fallback for the two lifetimes and the `float(...)` conversions are left out.
- The two 500 paths are not modelled: a stored hash that is not a string, and an exception inside password verification (lines 268-287 and 336-343). In the model a stored hash is always a string, and the cipher's functions are total.
- Resolver.TokenUser: the branch that raises "Invalid authentication credentials" for a missing user (lines 172-176) is folded into the store's 404. Either error only triggers the API-key fallback.
- Provider.AuthProvider.RequestPasswordReset: in the model, the email lookup can fail only with 404. The re-raise of other errors is stated by `ResetFailureReply` on its own.
