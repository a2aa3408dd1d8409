# SpringSSOAuth authentication core in Dafny

A model of the server side of SpringSSOAuth: the in-memory credential store
(`MemStorage`), the `users` record shape, the local username/password flow
(`/api/register`, `/api/login`, `/api/logout`, `/api/user`), and the single
sign-on flow through the Scalekit identity provider (`/api/auth/scalekit`
and `/api/auth/callback`, with the reconciliation of a provider profile
against the store).

Every request handler is a pure function. It takes the request's inputs and
a `State`, which is the store (a `map<nat, User>` plus the id counter) and
the client's session. It returns a `Reply`: the response and the new
state. Anything the source gets from outside becomes a parameter:

- the scrypt key derivation (`Kdf`);
- the random salt bytes, the random CSRF state bytes and the random password
  suffix;
- the clock reading in milliseconds;
- the provider's token response and profile. `None` stands for a failed
  provider call.

Modules, in dependency order:

| module | file | models |
|---|---|---|
| `Wrappers` | wrappers.dfy | `Option`, `Result`, JavaScript truthiness of optional strings |
| `Text` | text.dfy | `String.prototype.split` on one character, and `join` |
| `Schema` | schema.dfy | the `users` row, the two insert shapes, the uniqueness constraints |
| `Storage` | storage.dfy | `MemStorage`: lookups, the two creates, the token update |
| `Uniqueness` | uniqueness.dfy | which store operations keep the uniqueness constraints |
| `Password` | password.dfy | `hashPassword` / `comparePasswords` and Node's hex codec |
| `Tokens` | tokens.dfy | `generateToken` as a claims record |
| `Http` | http.dfy | session, responses, passport's serialize/deserialize by id |
| `Auth` | auth.dfy | the four local-flow handlers and the local strategy |
| `AuthProperties` | auth_properties.dfy | properties across several local-flow requests |
| `Scalekit` | scalekit.dfy | `REDIRECT_URI`, the request parameters and the configuration guards |
| `ScalekitAuth` | scalekit_auth.dfy | the initiate step, the callback, the reconciliation |
| `ScalekitProperties` | scalekit_properties.dfy | properties across several SSO requests |

The model follows the code as written in these places:

- **Email link.** The email-link branch of the callback only refreshes the
  linked user's tokens (`server/scalekit-auth.ts:64-70`). It does not set
  `scalekit_id`, so the next SSO login of that profile takes the email branch
  again. `ScalekitProperties.EmailLinkLeavesSubjectUnlinked` proves this.
- **State mismatch.** A callback with a missing or wrong state returns before
  the stored state is deleted, so that state stays in the session.
- **SSO account and local login.** An account created by the SSO flow has the
  password `"scalekit_"` followed by the last 12 characters of
  `Math.random().toString(36)`. Comparing a password against it throws in
  one of two ways. When the suffix has no `"."`, the salt is undefined and
  scrypt throws. When the base-36 text is short, the suffix keeps the leading
  `"0."` (as in `scalekit_0.k3j9x2m1qz`). The digest part `scalekit_0` then
  decodes to an empty buffer, and `timingSafeEqual` throws on the length
  mismatch. Either way a local login to such an account is a server error
  (500), not a 401. `AuthProperties.LoginToScalekitAccount` proves this for
  every suffix.
- **Hex decoding.** `Buffer.from(text, "hex")` stops at the first pair that
  is not two hex digits. `timingSafeEqual` throws when the lengths differ.
  `comparePasswords` reports both as errors (`HashError`).
- **Lookup order.** Lookups return the first match in `Map` insertion order.
  Ids are inserted in increasing order, and `set` on an existing key keeps
  its position, so the first match is the one with the lowest id.

## Model

| member | source | states |
|---|---|---|
| `Storage.NewStore` | SpringSSOAuth/server/storage.ts:26-32 | a new store holds no users, its counter starts at 1, and it satisfies the store invariant |
| `Storage.GetUser` | SpringSSOAuth/server/storage.ts:34-36 | finds a record exactly when the id is a key, and then it is the record stored under that id |
| `Storage.GetUserByUsername` | SpringSSOAuth/server/storage.ts:38-42 | the result is a stored record whose username equals the key exactly, and no lower id matches; the result is undefined exactly when no record matches |
| `Storage.GetUserByEmail` | SpringSSOAuth/server/storage.ts:44-48 | the same for email: a null email never matches, and with several matches the first in insertion order is returned |
| `Storage.GetUserByScalekitId` | SpringSSOAuth/server/storage.ts:50-54 | the same for scalekit_id |
| `Storage.CreateUser` | SpringSSOAuth/server/storage.ts:56-72 | the new id is the old counter, which was not yet a key; the counter grows by one and the map by exactly one record; other records are unchanged; username and password are stored as given and all eight SSO/token columns are null |
| `Storage.CreateScalekitUser` | SpringSSOAuth/server/storage.ts:74-95 | the same freshness and "nothing else changes" facts; the password starts with `scalekit_`; each optional field becomes null when absent or null and is copied otherwise |
| `Storage.UpdateUserTokens` | SpringSSOAuth/server/storage.ts:97-120 | fails with "User not found" exactly for an unknown id; otherwise the map is the old map with that one record replaced, the counter is unchanged, the four token columns hold the new values, and every other column of the record is unchanged |
| `Storage.GetUserAfterCreate` | SpringSSOAuth/server/storage.ts:34-95 | after either create, `getUser` on the returned id gives back exactly the returned record, and the next id is still unused |
| `Schema.OrNull` | SpringSSOAuth/server/storage.ts:83-90 | `?? null` gives null exactly for an absent or null field, and keeps a given value, even an empty string |
| `Wrappers.OrNullIfEmpty` | SpringSSOAuth/server/scalekit-auth.ts:78-81 | the `or null` default keeps exactly the present, non-empty values |
| `Uniqueness.AddFreshKeepsUnique` | SpringSSOAuth/shared/schema.ts:7-11 | adding a record under a fresh key keeps username, email and scalekit_id unique when none of its values is already used |
| `Uniqueness.CreateUserKeepsUnique` | SpringSSOAuth/server/storage.ts:56-72 | a local create keeps every uniqueness constraint when the caller has checked that the username is free |
| `Uniqueness.CreateUserDuplicateUsername` | SpringSSOAuth/server/storage.ts:56-72 | the store does not enforce uniqueness: creating a taken username always breaks username uniqueness |
| `Uniqueness.CreateScalekitUserKeepsUnique` | SpringSSOAuth/server/storage.ts:74-95 | an SSO create keeps every constraint when its username is free and its email and scalekit_id, if given, are unused |
| `Uniqueness.SameIdentitiesKeepUnique` | SpringSSOAuth/shared/schema.ts:7-11 | rewriting records without changing username, email or scalekit_id keeps the constraints |
| `Uniqueness.UpdateUserTokensKeepsUnique` | SpringSSOAuth/server/storage.ts:110-119 | a token update always keeps every uniqueness constraint |
| `Text.Split` | SpringSSOAuth/server/auth.ts:30 | splitting on a character gives at least one part; no part holds the separator; there is one part exactly when the text has no separator; the first part is a prefix of the text |
| `Text.SplitPair` | SpringSSOAuth/server/auth.ts:26-30 | splitting `a + "." + b`, where neither side holds a ".", gives exactly `[a, b]` |
| `Password.Hex` | SpringSSOAuth/server/auth.ts:24-26 | hex text has two hex digits per byte |
| `Password.HexDecode` | SpringSSOAuth/server/auth.ts:31 | decoding yields at most one byte per two characters |
| `Password.HexRoundTrip` | SpringSSOAuth/server/auth.ts:24-31 | decoding the hex text of some bytes gives those bytes back |
| `Password.HashPassword` | SpringSSOAuth/server/auth.ts:23-27 | splitting the stored form on "." gives exactly the hex digest of KDF(password, salt) and the salt text, so the form holds exactly one "."; its length is twice the key length, plus 1, plus 32 |
| `Password.ComparePasswords` | SpringSSOAuth/server/auth.ts:29-34 | the comparison fails for lack of a salt exactly when the stored form has no "."; it fails on a length mismatch exactly when there is a "." and the decoded digest and the key derived from the supplied password and the stored salt differ in length; otherwise it answers whether the two are equal |
| `Password.HashThenCompare` | SpringSSOAuth/server/auth.ts:23-34 | a password always verifies against its own stored form |
| `Password.CompareOtherPassword` | SpringSSOAuth/server/auth.ts:29-34 | another password verifies against a stored form exactly when the KDF gives it the same key under the stored salt |
| `Password.NonHexStoredFormFails` | SpringSSOAuth/server/auth.ts:29-34 | a stored form that does not start with a hex digit never verifies: the comparison throws for every supplied password |
| `Tokens.GenerateToken` | SpringSSOAuth/server/auth.ts:36-45 | the token's claims are exactly the user's id and username, and its lifetime is "1h" |
| `Tokens.TokenDependsOnIdAndUsername` | SpringSSOAuth/server/auth.ts:36-45 | two records with the same id and username get tokens with the same claims (`id`, `username`), so a token refresh does not change the claims |
| `Http.Public` | SpringSSOAuth/server/auth.ts:118-121 | the public view carries exactly the id and username |
| `Http.DeserializeUser` | SpringSSOAuth/server/auth.ts:81-88 | a user is found exactly when the id is a key, and then it is the stored record with that id |
| `Http.DeserializeSerialized` | SpringSSOAuth/server/auth.ts:80-88 | serializing a stored user to its id and deserializing gives the same record |
| `Http.LogIn` | SpringSSOAuth/server/auth.ts:80 | after `req.login` the session identifies the user by its id alone, and the pending SSO state is untouched |
| `Http.CurrentUser` | SpringSSOAuth/server/auth.ts:160-165 | a request is authenticated exactly when the session holds an id that is still a key, and the user is the record under that id |
| `Auth.Register` | SpringSSOAuth/server/auth.ts:90-128 | 201 exactly when both fields are non-empty and the username is free; a missing field or a taken name gives the matching 400 with state unchanged; on success exactly one user is added, holding the hashed password, the session logs it in, and the reply carries its `{id, username}` and token |
| `Auth.Authenticate` | SpringSSOAuth/server/auth.ts:65-78 | accepts only the user found under the username whose stored form verifies the password, and always accepts that user when it does; errors exactly when that comparison throws |
| `Auth.Login` | SpringSSOAuth/server/auth.ts:130-151 | never changes the store; every rejection is the same 401 with the state unchanged; a throwing comparison is a 500; 200 exactly on acceptance, and then the session logs in the user and the reply carries its `{id, username}` and token |
| `Auth.Logout` | SpringSSOAuth/server/auth.ts:153-158 | answers 200, keeps the store, and the session no longer identifies a user |
| `Auth.WhoAmI` | SpringSSOAuth/server/auth.ts:160-175 | changes nothing; 401 exactly when no user is logged in, otherwise that user's `{id, username}` and a fresh token |
| `AuthProperties.LookupAddedUser` | SpringSSOAuth/server/storage.ts:38-72 | after a create under an unused username, the lookup by that username finds exactly the new record |
| `AuthProperties.RegisterThenLogin` | SpringSSOAuth/server/auth.ts:90-151 | logging in with just-registered credentials succeeds, with the same public user and the same token claims (`id`, `username`) as the registration |
| `AuthProperties.RegisterTwice` | SpringSSOAuth/server/auth.ts:100-105 | a second registration of a username is refused with "Username already exists" and leaves the state unchanged |
| `AuthProperties.RegisterKeepsUnique` | SpringSSOAuth/server/auth.ts:100-111 | registration keeps every uniqueness constraint of the table |
| `AuthProperties.LoginFailuresLookAlike` | SpringSSOAuth/server/auth.ts:66-70 | an unknown username and a wrong password get the identical 401 reply and state |
| `AuthProperties.LoginToScalekitAccount` | SpringSSOAuth/server/auth.ts:66-76 | logging in locally to an SSO-created account is a server error, whatever the password |
| `AuthProperties.LocalHandlersKeepSessionResolved` | SpringSSOAuth/server/auth.ts:80-88 | register, login and logout never leave a session id that is not a stored key, and on such states `/api/user` answers 401 exactly when no id is in the session |
| `AuthProperties.LogoutThenWhoAmI` | SpringSSOAuth/server/auth.ts:153-163 | after logout, `/api/user` answers 401 |
| `AuthProperties.LoginThenWhoAmI` | SpringSSOAuth/server/auth.ts:137-175 | after a successful login, `/api/user` returns the same public user and a token with the same claims (`id`, `username`) |
| `AuthProperties.AliceScenario` | SpringSSOAuth/server/auth.ts:90-175 | register, wrong-password login (401), right-password login (200), logout, then `/api/user` (401) |
| `Scalekit.RedirectUri` | SpringSSOAuth/server/scalekit.ts:14 | the redirect URI is the application URL, or the local default when it is unset or empty, followed by "/api/auth/callback" |
| `Scalekit.AuthorizationParams` | SpringSSOAuth/server/scalekit.ts:40-53 | fails exactly when the environment URL or the client id is unset; otherwise the keys are response_type, client_id, redirect_uri, scope and state in that order, with the values code, the client id, the redirect URI, "openid profile email" and the given state |
| `Scalekit.GetAuthorizationUrl` | SpringSSOAuth/server/scalekit.ts:40-54 | has the same guard; the URL is the environment URL, "/oauth2/authorize?" and the query text of those parameters |
| `Scalekit.ExchangeCodeRequest` | SpringSSOAuth/server/scalekit.ts:61-83 | fails exactly when the environment URL, client id or secret is unset; otherwise posts a form to the token path with grant_type authorization_code, the code, the redirect URI, the client id and the secret |
| `Scalekit.RefreshRequest` | SpringSSOAuth/server/scalekit.ts:121-142 | has the same guard; the form holds grant_type refresh_token, the refresh token, the client id and the secret, and no redirect_uri, and it is sent with the form content type |
| `Scalekit.UserInfoRequest` | SpringSSOAuth/server/scalekit.ts:97-107 | fails exactly when the environment URL is unset; otherwise it targets the userinfo path with a Bearer credential for the access token |
| `Scalekit.ParseQueryString` | SpringSSOAuth/server/scalekit.ts:45-53 | query text built from non-empty plain parameters parses back to the same pairs |
| `Scalekit.AuthorizationUrlCarriesState` | SpringSSOAuth/server/scalekit.ts:40-54 | the state passed in can be read back from the query of the authorization URL |
| `ScalekitAuth.Initiate` | SpringSSOAuth/server/scalekit-auth.ts:21-30 | stores the hex text of the random bytes as the session state, even when the URL cannot be built; answers with the URL exactly when the settings allow it, otherwise 500; never touches the store |
| `ScalekitAuth.ExpiresAt` | SpringSSOAuth/server/scalekit-auth.ts:69 | the expiry minus `expires_in` is the clock reading in whole seconds, rounded down |
| `ScalekitAuth.SsoUsername` | SpringSSOAuth/server/scalekit-auth.ts:77 | the profile's non-empty username, else its non-empty email, else "user_" + subject id; never empty |
| `ScalekitAuth.Reconcile` | SpringSSOAuth/server/scalekit-auth.ts:55-97 | the user linked to the subject gets fresh tokens; else the user with the profile's email gets fresh tokens and keeps its scalekit_id; else exactly one user is created from the profile with the SSO password marker; every branch stores the same expiry |
| `ScalekitAuth.Callback` | SpringSSOAuth/server/scalekit-auth.ts:33-113 | a missing or wrong state is a 400 with the state unchanged; a matching state is always consumed; a missing code is a 400 after that; the reply is a token redirect exactly when state, code, settings and both provider answers are all there, and then the session logs in the reconciled user; after a matching state and a code, a configuration or provider failure is a 500 with nobody logged in and the state consumed; any other reply leaves the store unchanged |
| `ScalekitProperties.InitiateUrlCarriesState` | SpringSSOAuth/server/scalekit-auth.ts:21-30 | the state stored by the initiate step is the one in the query of the URL it returns |
| `ScalekitProperties.StateSingleUse` | SpringSSOAuth/server/scalekit-auth.ts:38-47 | after any callback that accepted the state, every further callback is refused as an invalid state |
| `ScalekitProperties.InitiateKeepsSessionResolved` | SpringSSOAuth/server/scalekit-auth.ts:21-30 | the initiate step never leaves a session id that is not a stored key |
| `ScalekitProperties.CallbackKeepsSessionResolved` | SpringSSOAuth/server/scalekit-auth.ts:99-108 | the callback never leaves a session id that is not a stored key: it logs in only the user it has just stored |
| `ScalekitProperties.ReconcileStoresUser` | SpringSSOAuth/server/scalekit-auth.ts:55-97 | the user a reconciliation returns is the record stored under its id |
| `ScalekitProperties.LookupsSurviveTokenUpdate` | SpringSSOAuth/server/storage.ts:110-119 | a token update leaves every lookup by username, email or scalekit_id resolving to the same id |
| `ScalekitProperties.EmailLinkLeavesSubjectUnlinked` | SpringSSOAuth/server/scalekit-auth.ts:58-72 | after the email-link branch the subject is still unlinked, and the next login takes the email branch to the same user |
| `ScalekitProperties.ReconcileAgainResolvesSameUser` | SpringSSOAuth/server/scalekit-auth.ts:56-87 | after any reconciliation, the same profile takes an update branch and finds the same user |
| `ScalekitProperties.ReconcileGrowth` | SpringSSOAuth/server/scalekit-auth.ts:56-97 | a reconciliation adds at most one record, and none in an update branch |
| `ScalekitProperties.ReconcileTwice` | SpringSSOAuth/server/scalekit-auth.ts:56-97 | reconciling a profile twice resolves to one user and adds at most one record in all |
| `ScalekitProperties.CallbackAccepted` | SpringSSOAuth/server/scalekit-auth.ts:38-108 | with a matching state, a code, settings and both provider answers, the callback redirects with the reconciled user's token and logs that user in |
| `ScalekitProperties.InitiateThenCallback` | SpringSSOAuth/server/scalekit-auth.ts:21-108 | an initiate step followed by the callback carrying its state logs in the reconciled user and leaves no pending state |
| `ScalekitProperties.RepeatCallbackNoDuplicate` | SpringSSOAuth/server/scalekit-auth.ts:56-108 | a second full SSO login for the same profile logs in the same user and creates no record |
| `ScalekitProperties.ReconcileKeepsUnique` | SpringSSOAuth/server/scalekit-auth.ts:56-87 | reconciliation keeps every uniqueness constraint when a new user's derived username is free |
| `ScalekitProperties.ReconcileUsernameCollision` | SpringSSOAuth/server/scalekit-auth.ts:75-87 | when the derived username is already taken, the created user duplicates it |
| `ScalekitProperties.AliceCollision` | SpringSSOAuth/server/scalekit-auth.ts:77 | concrete case: a local "alice" and an SSO profile with username "alice" and an unused email end up as two users named "alice" |

## Left out

- The HTTP layer is not modelled: Express routing, `res.json`/`redirect`, and the axios calls to the provider. The provider's answers are inputs. A failed call, which the source passes to `next(error)`, is the single `ServerError` reply (500).
- Provider response parsing is not modelled. `expires_in` is an integer, and the unused profile fields `displayName` and `roles` are dropped.
- scrypt, `randomBytes` and `Math.random` are parameters. The model only assumes that the salt and state are 16 bytes. The password suffix is any string; the 12-character base-36 shape of `Math.random().toString(36).slice(-12)` is not modelled.
- The constant-time behaviour of `timingSafeEqual` cannot be stated. Only its length check and its byte comparison are modelled.
- JWT signing is not modelled: the secret, the encoding, and the `iat`/`exp` claims the signer adds. A token is its claims record and its `"1h"` lifetime.
- Percent-encoding by `URLSearchParams` is not modelled. Query parameters are raw pairs, and reading the state back is proved only when the client id, the redirect URI and the state contain no "&" or "=".
- Parts of session handling are not modelled: cookie options, the memorystore prune sweep, and session expiry. Neither is any session regeneration that passport may perform on login or logout; `LogIn` and `Logout` change only the user id.
- The startup warning about unset variables is not modelled (it has no effect on behaviour). Neither is the zod `.email()` check in `scalekitUserSchema`, because the server never parses input with that schema.
- Concurrency is not modelled: each request runs to completion before the next starts, so races between a lookup and a create cannot happen.
- `server/routes.ts` (route wiring and a health endpoint) and the React client are not part of this model.
- Auth.WhoAmI: for a session id that is not a key of the store, the model answers 401. In the source, `deserializeUser` passes `undefined`, which passport treats as a failed deserialization, so the request ends in an error (500). No operation deletes a user, and `LocalHandlersKeepSessionResolved`, `InitiateKeepsSessionResolved` and `CallbackKeepsSessionResolved` prove that the handlers never build such a session.
- Token equality in the lemmas (`RegisterThenLogin`, `LoginThenWhoAmI`, `TokenDependsOnIdAndUsername`) is equality of the claims `id` and `username`. The signer adds `iat` and `exp` claims, so the source issues a different JWT on every call.
- Storage.UpdateUserTokens: the unknown-id failure carries no store. The callers keep their old store, which is the source's "unchanged" outcome, but the contract does not state that as an equation.
