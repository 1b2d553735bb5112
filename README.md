# Pokédex service: rate limiter, record flattening and handler decisions

This project models the logic of a small Hono/TypeScript HTTP service (`pokedex/src/index.ts`) that is not I/O plumbing, and proves properties of it in Dafny.

The service has user registration, login and update, and a personal collection of Pokémon entries backed by a Prisma store and by the public PokeAPI. The model has three parts:

- **The sliding-window rate limiter** (`rate_limit.dfy`, `pipeline.dfy`). `rateLimit(limit, interval)` returns a middleware closure that owns a queue of timestamps. Each call does three things in order. It pushes `now`. It shifts stale timestamps off the front while `queue[0] && queue[0] < now - interval`. It answers 429 when `queue.length > limit`.
  - `RateLimit.SlidingWindow` is that closure. It is a class with a `seq` field, and `Admit` runs the same loop.
  - `Step`, `Dropped` and `Evict` are the pure specification that `Admit` is proved against.
  - `Pipeline.App` builds the one `rateLimit(10, 1000)` instance and registers it for both `/users` and `/collection`. The two route groups therefore share one queue and one budget.
- **Reference-record flattening** (`flatten.dfy`, `collection_sync.dfy`). The requested name is lower-cased and looked up upstream. The nested `abilities[i].ability.name` and `types[i].type.name` lists are joined with `", "`. `POST /collection` stores the result and `GET /collection/name/:pokename` returns it without storing. `Split` reads the encoding back, so the round trip states that order and separators are kept.
- **Handler decision rules** (`handlers.dfy`):
  - Prisma `P2025` becomes 404 and any other error becomes 500.
  - The login outcome is 404, 401, or an issued payload `{userId, email, role: "user"}`.
  - The partial-update data builder re-hashes the password only when one is supplied. A model of how the store applies `undefined` fields sits beside it.

The clock (`Date.now()`) is a parameter of `Admit` and `Gate`. Foreign calls are inputs:
- Prisma, the axios GET, `bcrypt.compare`, `sign` and `c.req.json()` are represented by their outcomes (`Attempt`, `Fetch`, `StoreOutcome`).
- `bcrypt.hash` is a function parameter.

`rateLimit(10, 1000)` is called once (`pokedex/src/index.ts:53`) and the same closure is registered for both `/users` and `/collection` (lines 54-55), so the two groups share one queue and one budget. `Pipeline.App.Serve` ties a stream of requests through `Gate` to `Dispatch`; `Pipeline.SharedBudget`, `Pipeline.ServeBurst` and `Pipeline.UsersExhaustCollection` show that requests to `/users` use up the budget of `/collection`.

## Model

| member | source | states |
|---|---|---|
| `RateLimit.Dropped` | pokedex/src/index.ts:24-26 | the number of front timestamps the eviction loop shifts off; never more than the queue holds (`DroppedAreStale` says which ones) |
| `RateLimit.Evict` | pokedex/src/index.ts:24-26 | the queue the eviction loop leaves is never longer than the one it started from; `StepEvictsStalePrefix` pins it as the queue minus its longest stale prefix |
| `RateLimit.DroppedAreStale` | pokedex/src/index.ts:24-26 | every timestamp the eviction loop drops is non-zero and strictly older than `now - interval`; the timestamp it stops at is not |
| `RateLimit.Step` | pokedex/src/index.ts:21-30 | after one call the queue is non-empty and ends with `now`, admitted or not; the call is admitted iff the queue then holds at most `limit` timestamps |
| `RateLimit.SlidingWindow.constructor` | pokedex/src/index.ts:17-18 | a new limiter keeps its `limit` and `interval` and starts with an empty queue |
| `RateLimit.SlidingWindow.Admit` | pokedex/src/index.ts:20-33 | the push/shift loop/length check leaves exactly the queue `Step` describes and answers its verdict; the last timestamp kept is `now`; admitted iff length <= `limit`; on clock-ordered timestamps every kept one is at or after `now - interval` |
| `RateLimit.StepEvictsStalePrefix` | pokedex/src/index.ts:22-26 | the new queue is a suffix of `old ++ [now]`: a prefix of stale entries is removed and the new front is not stale |
| `RateLimit.StepKeepsWindow` | pokedex/src/index.ts:21-26 | on positive, non-decreasing timestamps the new queue stays ordered, every entry lies in `[now - interval, now]`, and the last is `now` |
| `RateLimit.EvictionKeepsRecent` | pokedex/src/index.ts:24 | an entry at or after `now - interval` is never evicted; one exactly equal to the cutoff stays because the comparison is strict `<` |
| `RateLimit.ZeroFrontStopsEviction` | pokedex/src/index.ts:24 | the `queue[0] &&` guard: a zero timestamp at the front stops eviction, so the queue only grows |
| `RateLimit.ZeroFrontNeverDrains` | pokedex/src/index.ts:22-30 | with a zero timestamp at the front, every later call is kept and, once `limit` entries are queued, every call is refused whatever the clock |
| `RateLimit.DrainedWindowAdmits` | pokedex/src/index.ts:22-30 | once every earlier timestamp is older than `now - interval`, the queue shrinks to `[now]` and the call is admitted, however many were refused before |
| `RateLimit.RejectionPersists` | pokedex/src/index.ts:22-30 | a refused call's timestamp stays queued, so while nothing has gone stale the next call finds a longer queue and is refused too |
| `RateLimit.Replay` | pokedex/src/index.ts:20-33 | repeated calls of the one closure: one verdict per call, in call order; no calls leave the queue as it was |
| `RateLimit.ReplayKeepsLastCall` | pokedex/src/index.ts:22-26 | after any non-empty run of calls the queue ends with the latest call's timestamp, whatever was refused or evicted |
| `RateLimit.ReplayWithoutEviction` | pokedex/src/index.ts:22-30 | while the front never goes stale, a run of calls only appends, and the k-th call (from 0) is admitted iff the starting queue's length plus `k + 1` is at most `limit` |
| `RateLimit.BurstWithinInterval` | pokedex/src/index.ts:17-34 | from an empty queue, calls within one interval are admitted exactly while they number at most `limit`; the `(limit+1)`-th and later are refused |
| `Pipeline.Verdict` | pokedex/src/index.ts:28-32 | a refused call is answered `429 "Rate limit exceeded"`; an admitted one proceeds to the handler |
| `Pipeline.App.constructor` | pokedex/src/index.ts:53 | the application owns one fresh limiter with limit 10, interval 1000 ms and an empty queue |
| `Pipeline.App.Gate` | pokedex/src/index.ts:53-55 | a request of either group updates the one shared queue exactly as `Step` does and is answered by its verdict; the group plays no part |
| `Pipeline.Dispatch` | pokedex/src/index.ts:53-55 | the answers to a stream of requests: one per request, each either "proceed" or `429 "Rate limit exceeded"` |
| `Pipeline.App.Serve` | pokedex/src/index.ts:53-55 | serving a stream of requests of either group through `Gate`, one after the other, gives exactly the answers `Dispatch` computes from the queue the limiter held before, and leaves the queue `Replay` computes for the stream's timestamps |
| `Pipeline.SharedBudget` | pokedex/src/index.ts:53-55 | the answers to any mixed stream of `/users` and `/collection` requests are the verdicts of one limiter fed all their timestamps |
| `Pipeline.SharedBurst` | pokedex/src/index.ts:53-55 | within 1000 ms from an empty queue, the first 10 requests of either group proceed and every later one gets 429 |
| `Pipeline.ServeBurst` | pokedex/src/index.ts:53-55 | a freshly built application served a burst within 1000 ms lets the first 10 requests through, whichever group they belong to, and answers every later one with 429 |
| `Pipeline.UsersExhaustCollection` | pokedex/src/index.ts:53-55 | ten `/users` requests at one instant on a fresh application make the next `/collection` request get 429 |
| `Flatten.ToLower` | pokedex/src/index.ts:168 | lower-casing keeps the length and maps each character through the ASCII lower-case mapping |
| `Flatten.ToLowerSpec` | pokedex/src/index.ts:168 | the lower-cased name has no upper-case letter; other characters are unchanged; upper-case letters move by 32 |
| `Flatten.ToLowerIdempotent` | pokedex/src/index.ts:168 | lower-casing an already lower-cased name changes nothing (the name is lower-cased here and, in the same way, at line 229) |
| `Flatten.Join` | pokedex/src/index.ts:178-179 | `join` of no names is `""`; otherwise its length is the names' total length plus one separator between each pair |
| `Flatten.JoinPlacesPart` | pokedex/src/index.ts:178-179 | the i-th name appears intact in the joined string at its offset, after all earlier names: source order is kept |
| `Flatten.JoinSeparatesParts` | pokedex/src/index.ts:178-179 | every name after the first is immediately preceded by `", "` |
| `Flatten.SplitJoin` | pokedex/src/index.ts:178-179 | splitting the joined string on `", "` gives back the names in order, for a non-empty list of names free of the separator |
| `Flatten.EmptyEncodingAmbiguous` | pokedex/src/index.ts:178 | the empty list and the list holding one empty name both flatten to `""` |
| `CollectionSync.LookupUrl` | pokedex/src/index.ts:168 | the URL is the API base followed by the requested name, lower-cased character by character and of the same length (the same URL is built at line 229) |
| `CollectionSync.ToEntry` | pokedex/src/index.ts:172-180 | the entry copies image, id, name, height and weight from the record, and each flattened list is as long as its names plus one `", "` between neighbours (the same object is built at lines 232-240) |
| `CollectionSync.AbilityNames` | pokedex/src/index.ts:178 | the ability names list has one name per slot, `abilities[i].ability.name`, in slot order |
| `CollectionSync.TypeNames` | pokedex/src/index.ts:179 | the type names list has one name per slot, `types[i].type.name`, in slot order |
| `CollectionSync.LookupIgnoresCase` | pokedex/src/index.ts:168 | two names equal up to ASCII case are looked up at the same URL |
| `CollectionSync.LookupUrlLowerCase` | pokedex/src/index.ts:229 | the lookup URL has no upper-case letter after the base, and lower-casing the name first changes nothing |
| `CollectionSync.EntryKeepsOrder` | pokedex/src/index.ts:173-179 | reading back the stored abilities and types strings gives the upstream names in source order |
| `CollectionSync.EmptyListsFlattenToEmpty` | pokedex/src/index.ts:178-179 | an empty abilities or types list is stored as `""` |
| `CollectionSync.EntryPlacesAbility` | pokedex/src/index.ts:178 | the i-th ability name sits in the stored string at its offset, preceded by `", "` when it is not the first |
| `CollectionSync.EntryPlacesType` | pokedex/src/index.ts:179 | the i-th type name sits in the stored string at its offset, preceded by `", "` when it is not the first |
| `CollectionSync.CreateByName` | pokedex/src/index.ts:164-187 | `POST /collection` answers 200 iff a name is given, its lookup succeeds and the store's `create` returns; the reply then carries the stored row, the flattened record under the `id` the store assigned; otherwise 500 with the fixed message |
| `CollectionSync.FetchByName` | pokedex/src/index.ts:226-246 | `GET /collection/name/:pokename` answers 200 with the flattened record iff the lookup succeeds, otherwise 500 |
| `CollectionSync.UpstreamNotFoundIsServerError` | pokedex/src/index.ts:168-186 | a failed upstream lookup, "not found" included, is answered 500 by both handlers, never 404 |
| `CollectionSync.HandlersIgnoreCase` | pokedex/src/index.ts:229 | both handlers give the same answer for names equal up to ASCII case |
| `CollectionSync.HandlersAgree` | pokedex/src/index.ts:232-239 | the two copies of the flattening code agree: the row stored by `POST /collection` holds the entry `GET /collection/name/:pokename` returns for the same name |
| `Handlers.StoreErrorStatus` | pokedex/src/index.ts:105-108 | a store error is 404 iff it is a known-request error with code `P2025`; every other error is 500 |
| `Handlers.MutationReply` | pokedex/src/index.ts:99-124 | update/delete of a user (lines 99-124) or of a collection entry (lines 265-304) is 200 iff the store call went through, 404 iff it threw `P2025`, else 500, each with its handler's message |
| `Handlers.MissingIdIsNotFound` | pokedex/src/index.ts:283-302 | an update or delete on a missing id (reported as `P2025`) is answered 404 with the not-found message, never a success |
| `Handlers.SigningSecret` | pokedex/src/index.ts:151 | the signing secret is `JWT_SECRET` when set and non-empty, else `"mySecretKey"`; it is never empty |
| `Handlers.Login` | pokedex/src/index.ts:129-159 | login ends "not found" iff the user lookup found nobody; it issues `{userId, email, role: "user"}` iff the user exists, the password matches and signing succeeds; every other path is "invalid credentials" |
| `Handlers.LoginResponse` | pokedex/src/index.ts:137-157 | not found is 404, invalid credentials is 401 (both the mismatch and any other throw), success is 200 |
| `Handlers.LoginDistinguishesUnknownEmail` | pokedex/src/index.ts:137-144 | a wrong password for a known email gives 401 while an unknown email gives 404 |
| `Handlers.BuildUserUpdate` | pokedex/src/index.ts:89-98 | the password is hashed with cost 10 iff a non-empty one is supplied; `dob` is parsed iff non-empty; every other field passes through, absent staying absent |
| `Handlers.ApplyUpdate` | pokedex/src/index.ts:99-102 | the store's semantics of update data, taken as given rather than derived from the code: a present field replaces its column, an `undefined` one leaves it as it was |
| `Handlers.EmptyPatchKeepsUser` | pokedex/src/index.ts:89-102 | an update with an empty body leaves the stored user unchanged |
| `Handlers.DigestOnlyChangesWithPassword` | pokedex/src/index.ts:97 | the stored digest changes only when a non-empty password is supplied, and then becomes its hash |
| `Handlers.EmptyStringsAreNotSkippedAlike` | pokedex/src/index.ts:89-97 | an empty password keeps the old digest, while an empty first name overwrites the column with `""` |

## Left out

- Prisma (`prisma.users.*`, `prisma.mycollection.*`) is a foreign database client. Only its outcome is modelled: success, a `P2025` known-request error, or another error. `ApplyUpdate` states how the store reads update data, where `undefined` keeps a column. The link "a missing id is reported as `P2025`" is Prisma's documented behaviour and is taken as given.
- bcrypt is a foreign primitive. `hash` is a function parameter and `compare` is a boolean outcome.
- The axios GET to PokeAPI is network I/O. Its answer is a decoded record or a failure. A body missing an object or array the handlers read into (`sprites`, `abilities`, `types`, or an element's `ability` or `type`) makes the handler throw; the model counts it as a failure, answered 500.
- A missing or `null` leaf of the upstream record is not modelled: `id`, `name`, `height`, `weight`, `sprites.front_default`, or an element's `ability.name` or `type.name`. The handler does not throw on these. It copies the value as it is, and `join` renders a missing name as `""`, so `GET /collection/name/:pokename` still answers 200. The model's record holds a string or number in every leaf.
- JWT `sign` and the `/protected/*` `jwt` middleware come from a foreign signing library, and no route uses the protected prefix. Login returns the payload, the secret and the token that signing produced.
- Hono routing, `cors()`, `c.json` and `serve` are framework dispatch. `app.use("/users", …)` and `app.use("/collection", …)` match by the framework's path rules; which concrete paths reach the limiter is not modelled, and `Gate` is called directly.
- `Date.now()` becomes the parameter `now`.
- Async interleaving is not modelled. The push, evict and check in the limiter run before the first `await`, so each call is atomic.
- `toLowerCase` is modelled on ASCII letters only. Unicode case mapping is not.
- The request body is not modelled as JSON. Fields are optional strings. A JSON `null`, a number (for example `phonenumber`), or a non-string `pokename` is not represented. For `pokename`, `None` stands for every value on which `toLowerCase` throws.
- `Number(id)` conversion of the route parameter is not modelled. A non-numeric id makes the store throw a non-`P2025` error, which is covered by the 500 branch.
- `POST /register`, `POST /collection/create`, `GET /collection` and `GET /collection/:id` are not part of this model. `POST /register` answers every failure with the default status 200 and the raw error object. `GET /collection/:id` answers 404 when `findUnique` finds no row, and 500 when it throws. The other two copy fields to the store or read from it and answer every failure with 500.
- MutationReply: models the status and message of the four update and delete replies, not their payload. `PATCH /users/:id` also returns the updated row, stored password digest included (line 103), and `PATCH /collection/:id` returns the updated entry (line 281).
- CreateByName: the row `create` returns is taken to be the data handed to it plus the `id` the store assigned. Columns the store might add or normalise are not modelled.
- The logging side effect `console.error` in the login handler is not modelled.
