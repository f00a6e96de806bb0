# User directory service: a Dafny model of its services, session login and guard chain

This project models the core of a small Express service (`src/index.js`)
that registers users, logs them in with a signed token, and gates the list,
profile, update and delete routes behind three middleware guards. The model
covers:

- the module-level `users` array and the five directory services. Create and
  delete mutate the array, so they are methods of the class
  `Services.Directory`, whose field `users: seq<Record>` they reassign. List,
  retrieve and change only read it, so they are functions of the store;
- the session service `createSessionService`, as the function `Session.Login`;
- the three guards. They are step functions over the store and the request
  context (`request.user`). The class `Guards.Request` overwrites that context
  in place. Guard chains run in declaration order and stop at the first guard
  that ends the request;
- the route table (`src/index.js:192-219`): which guards each route runs, which
  argument each controller passes to its service, and what a whole request does
  to the reply and to the store (`Routes.Serve`, implemented by `Routes.Handle`).

JavaScript values are explicit (`JsValues.Value`: `undefined`, string, boolean,
date), and `===` on strings, booleans and `undefined` is Dafny equality, so lookups on a field a record lacks behave
as in the source. (On two dates JavaScript's `===` compares object identity,
not the timestamp; no lookup here compares dates.) `Crash` stands for a JavaScript exception escaping a service
or guard. bcrypt and JSON Web Tokens are uninterpreted functions in
`Crypto.Primitives`. The laws the service relies on are stated once as
`Crypto.Sound` and are used only as lemma hypotheses.

The model follows the code as written, including where it behaves
differently from what a reader would expect of such a service:

- the auth guard takes the second space-separated word of the header, whatever
  the first word is. It does not require the `Bearer` scheme of section 2.1 of
  RFC 6750;
- change answers 200 `{}` when nothing matches, not 404;
- list returns full records, passwords included;
- delete removes by position and always answers 204;
- each route keeps its own guard order.

The consequences of the code as written are proved as lemmas:

- delete removes the first record of the store, not the record the route names;
- the profile route cannot succeed while every stored `uuid` is a string, and
  no route ever stores a `uuid` that is not one;
- patch never updates anything.

One ordering effect is proved although no route exhibits it: an existence
guard placed directly before an admin guard would erase the caller, so,
while every stored `uuid` is a string, the pair would admit nobody. PATCH declares existence, auth, admin, and the auth
guard in between restores the caller, so PATCH does check the caller.

## Model

| member | source | states |
|---|---|---|
| Records.Property | src/index.js:107 | among a record's own fields, `user[id]` is `undefined` for any key longer than the longest field name |
| Records.FindIndex | src/index.js:47 | the result is -1 exactly when no record's field equals the value; otherwise it is the position of the first record that matches |
| Records.FilterModule | src/index.js:91 | the result holds exactly the stored records whose `module` equals the argument, and is no longer than the store |
| Records.FilterAppend | src/index.js:91 | filtering distributes over concatenation, so the filtered list keeps store order |
| Records.FilterSingleton | src/index.js:91 | a one-record store is kept exactly when its `module` matches |
| Records.RedactDropsOnlyPassword | src/index.js:82-86 | two records have the same redacted copy exactly when they differ at most in `password`: the copy drops the password and nothing else |
| Services.NewRecord | src/index.js:74-81 | the pushed record keeps the body's name, email, module and id, and has `isAdm` false, the fresh `uuid`, the digest as password and both timestamps, whatever the body held for those fields |
| Services.CreateUser | src/index.js:63-88 | 409 "User already exists." exactly when some stored record has the same `name`, with the store unchanged; an exception exactly when the name is new and the password is not a string; otherwise 201, and the store grows by exactly one record appended at the end with prior records unchanged. The new record has `isAdm` false and the fresh `uuid` whatever the body held, a `uuid` distinct from every stored one, the body's name, email, module and id, and the bcrypt digest as password. The reply is that record without its password |
| Services.Directory.Create | src/index.js:63-88 | the reply and the new store are those of `CreateUser` on the old store: either unchanged, or the old store with the new record pushed |
| Services.List | src/index.js:89-95 | always 200. With a truthy `module` argument, exactly the records whose `module` equals it, in store order; otherwise the whole store |
| Services.Retrieve | src/index.js:96-108 | 404 "User not found!" exactly when no record's `uuid` equals `id`; otherwise 200 with the property of the first matching record whose name is `id` |
| Services.RetrieveLongIdGivesUndefined | src/index.js:107 | for an identifier longer than nine characters, retrieve answers 404 or 200 with `undefined`, never the record (own fields only) |
| Services.RetrieveUndefinedId | src/index.js:169-172 | called with `undefined`, as its controller does, retrieve answers 404 or an empty 200; it answers 404 when every stored `uuid` is a string |
| Services.Change | src/index.js:109-115 | throws exactly when some record's `id` field equals the argument; otherwise 200 with `{}`; never 404 |
| Services.SpliceStart | src/index.js:118 | the start position `splice` computes lies within the array |
| Services.Spliced | src/index.js:117-120 | when the start position is in range, the store loses exactly the element there and the others keep their relative order; otherwise the store is unchanged |
| Services.DeleteInRange | src/index.js:118 | for an index in range, the new store is the elements before it followed by the elements after it, in order, and the removed element together with the new store is the old store as a multiset |
| Services.DeleteOutOfRange | src/index.js:118 | an index past the end leaves the store unchanged |
| Services.DeleteUndefined | src/index.js:180-183 | an undefined index behaves as index 0: the first record is removed |
| Services.Directory.Delete | src/index.js:117-120 | always answers 204 with `{}`; the new store is the old one after `splice(index, 1)` |
| Services.Directory.constructor | src/index.js:2 | the directory starts with the given store |
| Session.Login | src/index.js:122-154 | 200 or 401 "Wrong email or password" unless an exception escapes. 401 exactly when no record has the email, or the first record with it has a string password that the candidate does not match. It throws exactly when the first record with the email exists and either password is not a string, or the password matches and that record's `uuid` is not a string. It answers 200 exactly when both passwords are strings and match and the `uuid` is a string. On 200, the token is signed for the `uuid` of the first record with that email |
| Session.UnknownEmailLooksLikeWrongPassword | src/index.js:126-142 | an unknown email and a wrong password give the identical 401 reply |
| Session.SignUpThenLogin | src/index.js:143-146 | after a successful registration, logging in with the same credentials returns a token that verifies to the new record's `uuid` |
| Guards.Split | src/index.js:30 | `split(" ")` yields at least one piece and no piece contains a space; it yields one piece exactly when the header has no space |
| Guards.JoinSplit | src/index.js:30 | joining the pieces with spaces gives back the header |
| Guards.SplitJoin | src/index.js:30 | splitting space-free pieces joined with spaces gives back the pieces |
| Guards.BearerToken | src/index.js:30 | a token exists exactly when the header holds a space; it is the second piece of `split(" ")` and holds no space |
| Guards.SchemeNotChecked | src/index.js:30 | for any first word, not only `Bearer`, the token is the second word |
| Guards.NoSpaceNoToken | src/index.js:30 | a header yields no token exactly when it has no space |
| Guards.AuthStep | src/index.js:23-44 | 401 "Missing authorization headers" exactly when the header is absent or empty. Otherwise it continues exactly when the second word exists and verifies, with the context replaced by `{id: sub}`; in every other case 401 "Invalid token" |
| Guards.ExistsStep | src/index.js:46-59 | 404 "User not found!" exactly when no record's `uuid` equals the route's `id`; otherwise it continues with the context replaced by the position of the first match |
| Guards.AdmStep | src/index.js:11-21 | 403 exactly when the first record whose `uuid` is the context's `id` has `isAdm` false. It throws exactly when the context is unset or no record matches. Otherwise it continues with the context unchanged |
| Guards.RunGuards | src/index.js:192-219 | a chain that stops answers 401, 403 or 404, or throws. A chain of admin guards alone leaves the context as it found it. A chain that contains the auth guard and lets the request through leaves `request.user` set |
| Guards.RunGuardsAppend | src/index.js:192-219 | running two guard chains one after the other equals running their concatenation, stopping at the first rejection |
| Guards.AdmittedByEveryGuard | src/index.js:192-219 | a chain lets a request through only if every guard in it continued, each from the context its predecessors left |
| Guards.AdmWithoutAuthThrows | src/index.js:12 | the admin guard with no guard before it throws |
| Guards.ExistsThenAdmNeverAdmits | src/index.js:54-56 | the existence guard followed by the admin guard never admits a request when all stored `uuid`s are strings: 404 or an exception |
| Guards.AuthThenAdmChecksCaller | src/index.js:38-40 | after auth then admin, the context is the token's subject, and the first record with that `uuid` is not marked `isAdm` false |
| Guards.Request.constructor | src/index.js:12 | a request starts with `request.user` unset, as Express leaves it; the code first reads it here |
| Guards.Request.EnsureAuth | src/index.js:23-44 | the outcome and the new `request.user` are those of `AuthStep`; a rejection leaves `request.user` alone |
| Guards.Request.EnsureUserExists | src/index.js:46-59 | the outcome and the new `request.user` are those of `ExistsStep`; a rejection leaves `request.user` alone |
| Guards.Request.EnsureAdm | src/index.js:11-21 | the outcome is that of `AdmStep`, and `request.user` is not written |
| Routes.GuardsOf | src/index.js:192-219 | every admin guard is immediately preceded by an auth guard. Profile, PATCH and DELETE run the existence guard; list, PATCH and DELETE run the admin guard; sign-up and login run no guard |
| Routes.Controller | src/index.js:158-188 | only sign-up and delete change the store. Delete answers 204 after `splice(undefined, 1)`. Profile answers whatever `Retrieve(undefined)` answers. PATCH answers 200 `{}` or throws. List answers 200 with a `[200, list]` pair |
| Routes.Serve | src/index.js:192-219 | a route's first rejecting guard gives the reply and leaves the store unchanged. Only sign-up and delete change the store. Login's reply is `Login` on the store |
| Routes.DeleteRemovesFirstRecord | src/index.js:212-218 | a 204 from DELETE implies the named target existed and the store lost its first record; any other reply leaves the store unchanged |
| Routes.PatchNeverUpdates | src/index.js:205-211 | PATCH never changes the store, and a 200 carries `{}`. Once admitted, it throws exactly when some record has no `id` field |
| Routes.AdminRoutesCheckCaller | src/index.js:193-218 | on every route with an admin guard, an admitted request carries a verifying token whose subject's first record is not marked `isAdm` false |
| Routes.ListNeedsAdmin | src/index.js:193-198 | for a caller with a verifying token and a stored record, GET /users answers 403 when that record has `isAdm` false, and the `[200, list]` pair otherwise |
| Routes.ProfileNeverSucceeds | src/index.js:199-204 | with every stored `uuid` a string, GET /users/profile answers 401 or 404 and never reaches its controller |
| Routes.ServeKeepsUuidsStrings | src/index.js:192-219 | if every stored `uuid` is a string before a request to any route, it still is afterwards |
| Routes.SignUpLoginThenList | src/index.js:192-219 | register, log in, list: 201, then 200 with a token for the new record, then 403 for that token on GET /users |
| Routes.RunChain | src/index.js:192-219 | walking a route's guards on a request yields the chain's rejection, or no rejection with `request.user` set to the chain's final context |
| Routes.Handle | src/index.js:158-219 | the reply and the new store of one request are those `Serve` gives |

## Left out

- Express plumbing is not modelled: app setup, JSON body parsing, route matching, `app.listen` and the export. A request arrives as `Guards.Incoming`.
- Express sets `request.params.id` only on `/users/:id`. `Routes.ProfileNeverSucceeds` takes that as a hypothesis.
- bcrypt's algorithm, its cost factor and its random salt are not modelled. They become the uninterpreted `hash`/`compare` pair, and the salt is a parameter.
- jsonwebtoken's signature, `iat`/`exp` claims, expiry clock and secret key are not modelled. They become the uninterpreted `sign`/`verify` pair. `Crypto.Sound` assumes a token verifies to its subject within its 24 hours.
- `uuidv4()` and `new Date()` are parameters (`Services.Generated`). The two `new Date()` calls share one timestamp.
- `dotenv` and `process.env.SECRET_KEY` are configuration and are not modelled.
- `async`/`await` is not modelled: every service runs to completion in sequence, with no interleaving between requests.
- What happens after an exception escapes is not modelled; every case appears as `Crash` with the store kept. A throw in a synchronous guard or controller becomes Express's 500 page. A rejection in the async create or login controllers (bcrypt on a non-string, jsonwebtoken on a non-string subject) is ignored by Express 4: on Node 14 or older the request hangs, and since Node 15 the unhandled rejection ends the process. Process exit, with the loss of the in-memory `users` array and the refusal of every later request, is not modelled.
- Only the fields the code reads or writes are modelled: name, email, module, id, password, uuid, isAdm, createdOn, updatedOn. Other fields of a request body are not modelled, though the spread copies them into the record.
- Numbers, `null`, arrays and nested objects as field or parameter values are not modelled. A repeated query parameter, which Express turns into an array, is one such value.
- Services.Directory.Delete: is modelled only with an integer or undefined index. The controller always passes `undefined`, so string-to-number conversion of `splice` is not modelled.
- Records.Property: models only a record's own fields. JavaScript's `user[key]` also finds members inherited from `Object.prototype`, such as `constructor`, `hasOwnProperty` and `__proto__`, and these are not `undefined`. The controller always passes `undefined`, so only a direct call with an initial store holding such a `uuid` could reach them.
- Services.RetrieveLongIdGivesUndefined: holds for own fields only, for the same reason. An identifier such as `"constructor"` would yield an inherited member, not `undefined`.
- `src/database` (the initial contents of `users`) is not part of this model. The store starts from any sequence of records.
