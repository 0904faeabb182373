# Trading-card deck backend: request-decision logic in Dafny

This project models the three pieces of the trading-card-game REST backend
that hold logic of their own. The JSON and the ORM, hasher and token signer
around them are abstracted.

- **Deck handlers** (`src/controllers/decks.controller.ts`), in module
  `DeckController`. Class `DeckStore` holds the deck table as a
  `map<int, Deck>`. Each deck's card rows are folded into its card-id list.
  The class also holds the fixed catalog of card ids and the next id the
  database will assign. `Create`, `GetMine`, `GetOne`, `Update` and `Delete`
  return the status and JSON the handler writes. Each one states what becomes
  of the deck map. The invariant `Valid()` says every id is below the next id
  and every stored deck has ten distinct catalog cards. Every mutating handler
  preserves it.
- **Sign-up and sign-in** (`src/controllers/auth.controller.ts`), in module
  `AuthController`. Class `UserStore` holds the user table as a
  `map<string, User>` keyed by email. Its `SignUp` method validates the body,
  checks the email is unused, hashes the password, inserts the row and issues
  a token. `SignIn` is a function of the user map, so by construction it never
  changes the store. Hashing, comparison and signing are the function fields
  of a `Services` value. `SoundHasher` says a hash verifies against its own
  password and never equals it.
- **Auth gate** (`src/middlewares/auth.middleware.ts`), in module
  `AuthMiddleware`. `Gate` states the gate's decision as a function of the
  Authorization header and of the verifier. `Authenticate` is the middleware
  itself, acting on an `Exchange` object: it either sets `req.user` and
  counts one `next()` call, or writes a 401 with its message.
  `IsValidJwtPayload` is the payload shape check, written as the JavaScript
  `typeof` test.

Module `JsValues` models the JavaScript values the handlers inspect. It gives
their truthiness (`!x`), `typeof`, `in`, `.length`, `??` and `startsWith`.
Request bodies are maps from field name to value, so missing fields, `null`,
empty strings, non-arrays and non-strings are all within reach of the
contracts.

Whenever a database call throws, the handler answers 500. In the deck
handlers the flag `outage` means every database call throws. In the auth
handlers the `Fault` value names the one collaborator call that throws: the
lookup, the hash or compare, the insert, or the signing. The ORM refuses a value of
the wrong type, such as a numeric name on create or a non-numeric card id, and
bcrypt refuses a non-string password. Both throws are modelled, so both paths
end in 500. On update the name goes to the ORM as `name ?? undefined`. The ORM
there also takes the update-operation object `{ set: s }`, which stores `s`.
`UpdatedName` models this. Any other non-string name is refused with 500,
including the empty object `{}`, because an update-operation object must
name exactly one operation.

In several places the code departs from what its branches and messages
evidently intend. The model follows the code:

- An expired token is answered with "Invalid token", not "Token expired". The
  source tests `instanceof JsonWebTokenError` first, and `TokenExpiredError`
  is one of its subclasses. `TokenExpiredNeverReported` proves that the
  "Token expired" branch is never taken.
- Sign-in with a truthy password that is not a string, such as a number,
  tells whether the account exists. An unknown email gets 401 "Invalid
  credentials", but for a stored email `bcrypt.compare` throws and the reply
  is 500. `NonStringPasswordRevealsAccount` states this.
- A failed insert during sign-up answers 500, even when a concurrent sign-up
  took the email first. It is not translated to 409.
- If signing fails after the insert, the user row stays stored and the reply
  is 500.
- `Update` accepts an empty-string name and stores it. Only `null` and a
  missing name keep the old name. `Create`
  rejects an empty name.
- There is no `/api/me` handler in the source.

## Model

| member | source | states |
|---|---|---|
| `DeckController.CardIds` | src/controllers/decks.controller.ts:18-20 | the id list handed to the ORM exists exactly when every entry is a number, and it then holds those numbers in order |
| `DeckController.TenMatchesIffDistinctKnown` | src/controllers/decks.controller.ts:18-24 | for ten ids, exactly ten card rows match iff the ids are pairwise distinct and all in the catalog, so duplicates and unknown ids are both rejected |
| `DeckController.DeckStore.Create` | src/controllers/decks.controller.ts:7-42 | a falsy name gives 400; a cards value that is not a 10-entry array gives 400; unknown or repeated ids give 400; each 400 leaves the store unchanged; a DB failure, a non-numeric id, or a truthy non-string name with an accepted card list gives 500; on 201 exactly one deck is added under a fresh id, owned by the requester, with the given name and ids in order, and other decks are untouched; Valid() is preserved |
| `DeckController.DeckStore.GetMine` | src/controllers/decks.controller.ts:45-55 | answers 200 with exactly the decks whose owner is the requester, with their stored contents; 500 when the database fails |
| `DeckController.DeckStore.GetOne` | src/controllers/decks.controller.ts:58-70 | 200 with the deck iff it exists and is owned by the requester, otherwise 404 "Deck not found" (or 500); never returns another user's deck |
| `DeckController.DeckStore.Update` | src/controllers/decks.controller.ts:73-113 | 404 iff the database answers and the deck is not the requester's; 400 for cards given but not ten distinct catalog ids; 500 for a name the ORM refuses; on 200 only that deck changes, its cards become exactly the new list when cards are given and are kept otherwise, its name is kept when name is null or missing, is the given string when a string is given, is `s` for `{ set: s }`, and its owner never changes; on any other status nothing changes; Valid() is preserved |
| `DeckController.DeckStore.Delete` | src/controllers/decks.controller.ts:116-130 | 404 unless owned, store unchanged; on 200 exactly the targeted deck is removed and all others are unchanged |
| `AuthController.SignIn` | src/controllers/auth.controller.ts:55-97 | 400 iff email or password is falsy; a failing or type-refusing lookup, compare or signing gives 500 "Internal server error"; an unknown email, or a stored email with a string password that does not verify, gives 401, and 401 is always "Invalid credentials"; 200 iff the email is stored and its hash verifies with no collaborator failing, and the reply then holds the token for the stored id and email and a summary without the password |
| `AuthController.CredentialFailuresIndistinguishable` | src/controllers/auth.controller.ts:68-78 | for string passwords and no lookup or compare failure, an unknown email and a wrong password produce the identical reply (401, "Invalid credentials") |
| `AuthController.NonStringPasswordRevealsAccount` | src/controllers/auth.controller.ts:59-78 | with a truthy non-string password, an unknown email gets 401 "Invalid credentials" but a stored email gets 500, so the reply shows whether the account exists |
| `AuthController.SignInHidesStoredHash` | src/controllers/auth.controller.ts:73-93 | replacing a user's stored hash by another one that gives the same comparison result leaves the sign-in reply unchanged, so the hash leaks only through the comparison |
| `AuthController.SignInAfterSignUp` | src/controllers/auth.controller.ts:25-33 | once a user is stored with the hash of the password, signing in with that email and password gives 200 with that user's id, email and username |
| `AuthController.UserStore.SignUp` | src/controllers/auth.controller.ts:7-53 | invalid or missing fields or a short password give 400 before any store access, whatever the store or the faults; a taken email gives 409; each leaves the store unchanged; on success exactly one user is added under that email with a fresh id and the hash of the password, never the plaintext, and the reply is 201 with the token for the new id and email and a summary without the password; an insert failure gives 500, not 409 |
| `AuthController.SignUpThenSignIn` | src/controllers/auth.controller.ts:25-48 | a fresh registration followed by sign-in with the same credentials gives 201 then 200 with the same user summary, and the stored password is the hash, not the plaintext |
| `AuthMiddleware.IsValidJwtPayloadIff` | src/middlewares/auth.middleware.ts:17-26 | the payload check holds iff the value is a non-null object with a numeric userId and a string email |
| `AuthMiddleware.BearerToken` | src/middlewares/auth.middleware.ts:34-41 | a token is extracted iff the header is present and starts with "Bearer ", and then the header is exactly "Bearer " followed by the token |
| `AuthMiddleware.Gate` | src/middlewares/auth.middleware.ts:28-65 | every refusal is 401; no bearer header gives "No token provided"; a thrown verification gives the catch-block message; a verified payload that fails the shape check gives "Invalid token payload"; it proceeds iff the token verifies to a well-shaped payload, with exactly that payload's userId and email |
| `AuthMiddleware.TokenPassedVerbatim` | src/middlewares/auth.middleware.ts:41-43 | for a header "Bearer " + t, the outcome depends on the verifier only through its answer for t |
| `AuthMiddleware.SchemeIsCaseSensitive` | src/middlewares/auth.middleware.ts:36-39 | a header starting with lower-case "bearer " is refused with "No token provided" |
| `AuthMiddleware.SignedClaimsAdmitted` | src/middlewares/auth.middleware.ts:45-55 | a token that decodes to an object holding userId and email, plus any other claims, proceeds with exactly that identity |
| `AuthMiddleware.ExpiredTokenReportedInvalid` | src/middlewares/auth.middleware.ts:56-58 | an expired token gets 401 "Invalid token", because the JsonWebTokenError test also catches its subclass |
| `AuthMiddleware.TokenExpiredNeverReported` | src/middlewares/auth.middleware.ts:56-64 | no header and no verifier outcome ever produce "Token expired" |
| `AuthMiddleware.Authenticate` | src/middlewares/auth.middleware.ts:28-65 | when the gate proceeds, req.user is set to the identity, next is called exactly once, and nothing is written to the response; when it refuses, the status and message are written, req.user is untouched, and next is not called |

## Left out

- `src/index.ts` (app construction, CORS, JSON parsing, static files) and `src/routes/*.ts` are framework wiring. The deck routes are declared as `/decks…` inside a router mounted at `/api/decks`, so they are served under `/api/decks/decks…`. The gate runs only in front of the deck routes.
- `src/controllers/cards.controller.ts` is a single ordered query with no logic of its own.
- The internals of bcrypt and jsonwebtoken (salting, work factor, signatures, expiry clock, secret) are out of scope. `Services.hash` is one fixed function, so the per-call random salt is not modelled. `verify` is an arbitrary function from token to outcome.
- Prisma's `include` shapes are not modelled. A deck reply carries the deck's card ids, not the joined card rows. The deck schema is not part of this model, so the model assumes deleting a deck removes its deck-card rows with it.
- Each handler is one atomic step. The `$transaction` of an update is assumed atomic. A throw from any collaborator call is folded into `outage` or a single `Fault`, with the store unchanged, except for the signing failure after sign-up's insert.
- Concurrency is not modelled. The check-then-create race in sign-up appears only as a `CreateFails` fault.
- `Number(req.params.id)` is taken as an integer deck id, so NaN ids are not modelled. The requester id is an integer, because the gate always runs before the deck handlers. `console.log` and reading the environment have no effect on the model.
- Deck ids, card ids and user ids are unbounded integers. The database's id columns are bounded, for example 32-bit, so the ORM would throw on an id outside the column's range and the handler would answer 500. That refusal is not modelled: such a card id is reported as an unknown card (400), and such a `:id` as a missing deck (404).
- JavaScript numbers are unbounded integers here, with no fractions and no NaN. String length counts Unicode scalar values, not UTF-16 code units.
- An object-valued password whose `length` property is not a number is not modelled: JavaScript would coerce that property in `< 6`, and the model treats its length as `undefined`. A JSON body that is an array reads as a body with no fields.
- DeckController.DeckStore.GetMine: the list is a map keyed by deck id, so the order of the database's result is not modelled.
- AuthController.SignUpThenSignIn: the token itself is not compared across the two replies. Real tokens differ by their issued-at claim.
