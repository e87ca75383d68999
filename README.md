# Programmer jokes store: a Dafny model

This project models the record store behind a small HTTP API for programmer
jokes. The store lives in Redis as two structures that must stay in lockstep:

- the **id index**, a Redis set under the key `rs2JokeIdIndex`;
- one **body** per id, a Redis string under the key `rs1Jokes:<id>`.

The model covers five behaviours of `main.go`:

- **Id allocation** (`generateId`). Build an 8-character candidate from a
  62-character alphabet. Ask the index whether the candidate is taken. Retry
  until it is not.
- **Create** (`writeJoke`). Reject a joke longer than 256 bytes. Otherwise
  allocate an id, add it to the index, then store the body.
- **Read by id** and **read at random**. These are the store logic of the
  `GET /jokes/:joke_id` and `GET /` handlers.
- **Delete**. This is the store logic of the `DELETE /jokes` handler.
- **Seeding** (`populateDbWithJokes`). Create each of the 19 built-in jokes in
  turn, and stop at the first error.

Files and modules:

- `wrappers.dfy` (`Wrappers`): `Option` and `Result`. These stand for Go's
  `(value, error)` returns.
- `redis.dfy` (`Redis`): `Client`, an in-memory stand-in for the Redis server.
  - `index` is the set under `rs2JokeIdIndex`.
  - `strings` is the string keyspace.
  - Its methods are the go-redis commands the core uses: SISMEMBER, SRANDMEMBER,
    SADD, SREM, GET, SET and DEL.
  - Any command may fail, as a network round trip can. Which calls fail is a
    nondeterministic choice. A command that fails is taken not to have been
    applied.
  - GET of a missing key and SRANDMEMBER of an empty set report `redis.Nil`,
    as go-redis does.
- `errors.dfy` (`Errors`): the error classes.
  - `InputValidation` is the `InputValidationError` of `errors.go`.
  - `NoJokeWithId` is "There is no joke associated with that ID".
  - `Store` is a Redis error, passed on unchanged.
  - `IdSpaceExhausted` is explained under "Left out".
- `ids.dfy` (`IdAllocator`): `generateId`.
  - Randomness comes from the caller as `rolls`: the values `rand.Intn(62)` would
    return, in order. Each attempt uses 8 of them.
  - `Allocate` is the reference definition: the first candidate that is not in
    the index. `GenerateId` is proved to return exactly that candidate, or an
    error.
- `jokes.dfy` (`JokeStore`): create, both reads, delete and seeding, as methods
  over a `Client`.
  - `Consistent(index, strings)` is the store invariant: an id is in the index
    exactly when `rs1Jokes:<id>` holds a body.
  - Create and delete are proved to keep this invariant when all their Redis
    commands succeed.
  - When a later command fails, the contracts describe the state that is left
    behind. A failed SET after a successful SADD leaves one new id in the index
    (`GainedOne`); from a consistent store, that id has no body. A failed DEL
    after a successful SREM leaves a body that no id points to.
  - The two failures combine. A failed DEL leaves `rs1Jokes:<id>` behind with
    `id` absent from the index, so a later create may draw `id` again. If its
    SADD then succeeds and its SET fails, `id` is back in the index and reads
    return the deleted joke's old body. This is why `WriteJoke` promises a
    bodiless new id only when the store was consistent beforehand.

Joke bodies are byte strings (`seq<byte>`), because Go's `len(joke)` counts
bytes. The built-in jokes are Go string literals, so `Utf8` encodes them.

The error behaviour follows the code exactly:

- An empty index makes the random read fail with Redis's `redis.Nil` error.
  The code has no separate "empty store" error class.
- A read by id whose body is missing fails with the same `redis.Nil`.
- `populateDbWithJokes` returns the error unchanged.

## Model

| member | source | states |
|---|---|---|
| `Redis.Client.SIsMember` | main.go:61-65 | When the membership check succeeds, its answer is whether the member is in the index. Its only error is a store failure. |
| `Redis.Client.SRandMember` | main.go:40-44 | A returned id is a member of the index. An empty index always gives an error. `redis.Nil` is returned only for an empty index. |
| `Redis.Client.Get` | main.go:72-76 | A returned value is the value stored under the key. A missing key always gives an error. `redis.Nil` is returned only for a missing key. |
| `Redis.Client.SAdd` | main.go:160-163 | On success the index gains the member. On failure the index is unchanged. |
| `Redis.Client.Set` | main.go:165-168 | On success the key maps to the value and no other key changes. On failure the keyspace is unchanged. |
| `Redis.Client.SRem` | main.go:131-135 | On success the member is removed from the index. On failure the index is unchanged. |
| `Redis.Client.Del` | main.go:137-141 | On success the key is removed. On failure the keyspace is unchanged. |
| `IdAllocator.DrawCandidate` | main.go:213-216 | Filling the 8-rune slice from 8 draws gives an id: 8 characters, each from the 62-letter alphabet, equal to `CandidateAt` of those draws. |
| `IdAllocator.AllocateFresh` | main.go:212-226 | The reference allocation returns a well-formed id that is absent from the index. It is built from the last 8 draws it used. It used a whole number of attempts, and every earlier attempt's candidate was already in the index. |
| `IdAllocator.AllocateExhausted` | main.go:212-226 | The reference allocation finds nothing exactly when every attempt that the draws allow builds a candidate already in the index. |
| `IdAllocator.GenerateId` | main.go:209-227 | A returned id is the reference allocation's answer, with the same number of draws used. So it is well-formed and was reported absent from the index. When no candidate is fresh, the result is an error. A failed membership check is passed on. |
| `JokeStore.BodyKeyInjective` | main.go:165 | Two ids have the same body key `rs1Jokes:<id>` exactly when they are the same id. |
| `JokeStore.InsertPreservesConsistent` | main.go:160-170 | Adding a fresh id to the index and storing its body keeps "index = ids with a body". |
| `JokeStore.RemovePreservesConsistent` | main.go:131-143 | Removing an id from the index and deleting its body keeps "index = ids with a body". |
| `JokeStore.WriteJoke` | main.go:149-171 | Fails with the input-validation error exactly when the joke is over 256 bytes. In that case it touches nothing and uses no draws. On success: the id is the allocator's answer, well-formed and new; the index grows by exactly that id; only that id's body key changes, and it now holds the joke; the invariant is kept. On any other failure the error is an exhausted id space or a store failure, the keyspace is unchanged, and the index is either unchanged or holds one new well-formed id; from a consistent store that new id has no body. |
| `JokeStore.GetJokeById` | main.go:59-80 | Returns the stored body only for an id in the index. An id not in the index gives "no joke with that ID" (or a store failure), and that error implies the id is not in the index. For an indexed id in a consistent store, the result is the body or a store failure. Reading changes nothing. |
| `JokeStore.GetRandomJoke` | main.go:40-55 | A returned pair is an id in the index with its stored body. An empty index always gives an error. In a consistent store `redis.Nil` means the index is empty, and a non-empty index gives a joke or a store failure. |
| `JokeStore.DeleteJoke` | main.go:120-143 | Deleting an id not in the index fails and changes nothing; the index size is the same. On success the id was in the index, the index loses exactly it, its body key is removed, everything else is untouched, and the invariant is kept. A failed step leaves the keyspace unchanged, and the index either unchanged or without the id. |
| `JokeStore.WrittenAt` | main.go:196-202 | After the seeding writes under distinct ids, each id's body key holds the UTF-8 bytes of the joke written for it. |
| `JokeStore.WrittenOthers` | main.go:196-202 | The seeding writes add exactly the body keys of their ids and leave every other key's value as it was. |
| `JokeStore.SeedStep` | main.go:196-202 | One more successful `writeJoke` of the next joke extends the seeded run by its id. |
| `JokeStore.FreshCard` | main.go:196-202 | Distinct ids that are new to the index grow it by exactly their number. |
| `JokeStore.SeededConsistent` | main.go:196-202 | A run of successful writes that starts from a consistent store leaves it consistent. |
| `JokeStore.WriteJokes` | main.go:196-204 | Writes the jokes in order and stops at the first error, which it returns unchanged. On success there is one distinct, fresh, well-formed id per joke, every joke fits in 256 bytes, the index grows by exactly their number, each body is stored, and the invariant is kept. On an error: the error is the length error, an exhausted id space or a store failure; it is the length error exactly when the failing joke is over 256 bytes; the jokes before it fit and were written under distinct, fresh, well-formed ids; the index holds those ids and possibly one more. |
| `JokeStore.PopulateDbWithJokes` | main.go:173-205 | The same as `WriteJokes`, for the 19 built-in jokes, including every error-path clause. A successful seeding adds exactly 19 index entries. |
| `JokeStore.EncodeRune` | main.go:150 | One rune encodes to between one and four UTF-8 bytes. |
| `JokeStore.Utf8` | main.go:150 | The byte length that Go's `len` gives is at least the number of runes and at most four times it. |
| `JokeStore.Utf8Ascii` | main.go:150 | For an ASCII string, Go's `len` is the number of characters, and each byte is that character's code. |
| `JokeStore.FitStep` | main.go:196-202 | A joke that passes the length check extends a run of jokes that all pass it. |
| `JokeStore.FitPrefix` | main.go:196-202 | When a prefix of the jokes all pass the length check, each joke in that prefix does. |
| `JokeStore.CreateReadDelete` | main.go:58-143 | Composes the handlers on one joke. It runs on any store, consistent or not. After a successful create: reading the id gives back the same joke; two reads agree; the delete finds the id; a read after a successful delete is "no joke with that ID" or a store failure; and a store that was consistent before is consistent again. |

## Left out

- HTTP layer: Gin routing, `ShouldBindJSON` request binding, the JSON
  responses (`makeErrorResponse`, `ctx.JSON`), status codes and `router.Run()`
  are not modelled. The handlers are modelled from the point where they have the
  id in hand.
- Startup: `main` creates the client, seeds the store when `SCARD` reports an
  empty index, then calls `log.Fatalf` or `fmt.Println`. This is process
  start-up and I/O, so it is not modelled.
- Redis and the network: the go-redis client, its connection handling and
  `context` are replaced by `Redis.Client`. A real timeout can hide a command
  that was in fact applied. The model takes every failed command to have left
  the server unchanged.
- Randomness: `rand.Intn` is replaced by the caller's `rolls`. `SRANDMEMBER` is
  replaced by an arbitrary member of the index. Uniform sampling is not
  modelled.
- GenerateId: the Go loop retries forever. The model stops when the supplied
  draws run out and reports `IdSpaceExhausted`, an error Go never returns. This
  fuel bound is what makes the loop terminate.
- PopulateDbWithJokes: the model does not prove that each built-in joke fits
  in 256 bytes. So the model does not rule out a validation error during
  seeding. The model does prove that such an error comes exactly from an
  over-long joke. `Utf8Ascii` gives the byte length of an ASCII joke; the
  remaining step is a fact about each character of the 100-character joke
  literals, which the verifier does not establish unaided.
- Concurrency: the check-then-act gap between allocation and `SADD`, and races
  between requests, are outside a sequential model.
- `errors.go` only formats the message of `InputValidationError`. The model
  keeps the message text and not the formatting.
- `schema.go` holds only JSON struct tags.
