# Users CRUD backend: user store and response normalisation, in Dafny

This project models the parts of a small NestJS users backend that hold real
logic, and proves properties of them:

- **The in-memory user store** (`UsersService`): a list of users and a
  `nextId` counter, with `create`, `findAll`, `findOne`, `update` and
  `remove`. Each call is a function from a store to the next store and the
  `{ status, message, data }` reply (`users.dfy`).
- **The core response interceptor.** `formatResponse` turns whatever a handler
  returned into an envelope, including the "soft failure" of a returned
  `status: false`. `handleError` classifies a thrown value and folds a
  validation-error list into a field-to-messages map. Both are modelled as the
  `(status, body)` pair they write (`core_interceptor.dfy`).
- **The simple response interceptor.** It wraps every success as 200 `'Success'`
  and maps every error by an explicit production flag (`simple_interceptor.dfy`).
- **The validation exception filter.** Its `formatErrors` gives every property a
  key, even one without constraints (`validation_filter.dfy`).
- **The production exception filter.** It picks a status and a message under
  the production flag (`production_filter.dfy`).

JavaScript's value semantics are modelled explicitly in `js.dfy`:
- truthiness;
- `||` against `??`;
- optional property reads;
- the coercion of a value to a property key;
- the values `Object.values` and `for…in` visit.

Reading a field of `null` or `undefined` throws a `TypeError` in the source.
Where that can happen, it is a modelled outcome (`TypeErrorThrown`,
`RaisedTypeError`). `process.env.NODE_ENV === 'production'` is the parameter
`isProduction`. The formatting time is an opaque `timestamp` string.
`response.statusCode` before the write is the parameter `responseStatus`.

The fold of a validation-error list has an independent reference meaning in
`validation_errors.dfy`:
- `KeySet` is the set of keys;
- `Collect` is, for each key, the concatenation in input order of the messages
  of the entries filed under it.

Both the interceptor's `reduce` and the filter's `forEach` loop are proved equal
to it. They differ only in which entries count.

### Where the code differs from the documented contract

The model follows the code:
- **When `data` is present.** The core interceptor adds a `data` key only when
  `res.data` is truthy. The contract says "when the result carries a `data`
  field". Its example says that a handler returning `{ id: 1, firstName: "John" }`
  gets that object as `data`. In the code it gets no `data` key at all
  (`CoreInterceptor.PlainObjectHasNoData`). Also, the fallback in
  `res?.data ?? res` is never emitted.
- **The soft-failure status.** It is `res.statusCode || 400`, so a `statusCode`
  of `0`, `""` or `false` also becomes 400, not only a missing one
  (`CoreInterceptor.ZeroStatusCode`).
- **Fields with no violations.** The contract says they are absent from the
  folded map. In the interceptor, an entry whose `constraints` is a truthy empty
  object still creates a key, holding an empty list. The validation filter
  creates a key for every entry (`ValidationErrors.BareEntry`).
- **Whether the fault classifier throws.** The contract says it never does. The
  code throws a `TypeError` in three cases:
  - the thrown value is `null` or `undefined`;
  - a validation-error entry is `null`;
  - for the filter, the payload's `message` is not an array.

## Model

| member | source | states |
|---|---|---|
| Users.FindIndex | src/users/users.service.ts:71 | the result is -1 exactly when no user has the id; otherwise it is the first position holding the id |
| Users.NotFound | src/users/users.service.ts:52-56 | a miss replies `false` with `null` data and the message 'User with ID ' + the id in decimal + ' not found' |
| Users.NotFoundNamesId | src/users/users.service.ts:54 | the not-found message determines the id: two misses with different ids never get the same reply |
| Users.Create | src/users/users.service.ts:16-29 | the new user gets the pre-call `nextId` and the DTO fields; `nextId` grows by exactly 1; the user is appended with earlier entries unchanged; the reply is `true`, 'User created successfully' with the new user; validity is kept and the new id is fresh |
| Users.FindAll | src/users/users.service.ts:35-40 | the store is unchanged; the reply is `true` with all users; the message is 'No users found' exactly when the store is empty, else 'Users retrieved successfully' |
| Users.FindOne | src/users/users.service.ts:47-59 | the store is unchanged; status is true exactly when the id is present; a miss gives `false`, 'User with ID ${id} not found', `null`; a hit gives 'User retrieved successfully' and the first user with that id |
| Users.Merge | src/users/users.service.ts:79 | the merged user keeps the id and names; each update field that is present overwrites, and each absent one keeps the stored value |
| Users.MergeIdempotent | src/users/users.service.ts:79 | merging the same update twice equals merging it once, and an update with no fields changes nothing |
| Users.Update | src/users/users.service.ts:67-86 | a miss leaves the store unchanged and replies not-found; a hit changes only the first matching position, where present DTO fields overwrite, absent ones and the id are kept; length and `nextId` are unchanged; the reply data is the new entry; validity is kept |
| Users.Remove | src/users/users.service.ts:93-110 | a miss leaves the store unchanged and replies not-found; a hit drops exactly the first matching user and keeps the others in order; length falls by one; the reply is the removed user; the multiset of users loses just that user; `nextId` is unchanged; in a valid store no user with the id remains |
| Users.RemoveKeepsValid | src/users/users.service.ts:104 | splicing one position out keeps ids distinct and below `nextId`, and leaves no user with the removed id |
| Users.Apply | src/users/users.service.ts:7-111 | every service call keeps ids pairwise distinct and below `nextId`, and never lowers `nextId` |
| Users.RunKeepsValid | src/users/users.service.ts:8-20 | any sequence of calls keeps the store valid and never lowers `nextId` |
| Users.IdsNeverReused | src/users/users.service.ts:19-22 | after any calls, removals included, the next created user's id differs from every id of the earlier store |
| Users.InitialRunsValid | src/users/users.service.ts:8-9 | from a fresh service (empty list, `nextId` 1) every sequence of calls leaves a valid store |
| Users.CreateThenFindOne | src/users/users.service.ts:19-58 | `findOne` with the id `create` handed out returns exactly the created user |
| Users.UpdateThenFindOne | src/users/users.service.ts:79-80 | after an update that hit, `findOne` returns the updated user |
| Users.RemoveThenMiss | src/users/users.service.ts:96-104 | after a removal that hit, `findOne`, `update` and `remove` on that id all reply not-found and leave the store unchanged |
| Js.OrCoalesceDiffer | src/core-modules/interceptors/response-interceptor/response.interceptor.ts:98-101 | `a \|\| b` and `a ?? b` differ only when `a` is `false`, `0` or `""` |
| Js.Lookup | src/core-modules/interceptors/response-interceptor/response.interceptor.ts:86 | a property read yields a value stored under the key, or `undefined` when no property has that key |
| Js.LookupFirst | src/core-modules/interceptors/response-interceptor/response.interceptor.ts:86 | a property read yields the value at the first position holding the key |
| Js.NatToDecimal | src/users/users.service.ts:54 | the decimal rendering is non-empty, all digits, with no leading zero, and read back as a decimal numeral it denotes the number |
| Js.IntToDecimal | src/users/users.service.ts:54 | the rendering of an id is non-empty, starts with '-' exactly for negative ids, and the digits after the sign denote the id's magnitude |
| Js.IntToDecimalCanonical | src/users/users.service.ts:54 | after the optional sign the rendering is the magnitude's digits with no leading zero |
| Js.IntToDecimalInjective | src/users/users.service.ts:54 | distinct ids render as distinct strings |
| Js.ForInMatchesValues | src/validation-exception/validation-exception.filter.ts:54-56 | on an object with distinct keys, reading each key back in a `for…in` loop yields exactly the list `Object.values` returns (the interceptor's reading of `constraints`), in order |
| ValidationErrors.CollectSnoc | src/validation-exception/validation-exception.filter.ts:46-57 | appending an entry appends its messages under its key and nothing under other keys |
| ValidationErrors.KeySetSnoc | src/validation-exception/validation-exception.filter.ts:50-52 | appending a counted entry adds exactly its key to the key set |
| ValidationErrors.KeySetCons | src/core-modules/interceptors/response-interceptor/response.interceptor.ts:54-56 | the key set of a list is the first entry's key, when counted, plus the key set of the rest |
| ValidationErrors.CollectOutsideKeySet | src/validation-exception/validation-exception.filter.ts:44-59 | a key that no counted entry carries collects no messages |
| ValidationErrors.DetailedKeysAreKeys | src/core-modules/interceptors/response-interceptor/response.interceptor.ts:55 | the interceptor's keys are always among the filter's keys for the same list |
| ValidationErrors.BareEntry | src/validation-exception/validation-exception.filter.ts:50-52 | an entry with a property but no constraints gets a key with an empty list from the filter and no key from the interceptor |
| CoreInterceptor.FormatResponse | src/core-modules/interceptors/response-interceptor/response.interceptor.ts:81-113 | the written status equals the body's `statusCode`; path, method and timestamp come from the request and the caller; body status is `false` exactly on a soft failure. A soft failure has status `res.statusCode \|\| 400`, message `res.message` and no `data`. Otherwise: status is `res.statusCode ?? current`; `status` defaults to `true`; a truthy message is kept, else 'Operation successful' or 'Operation failed' by status truthiness; `data` is present exactly when `res.data` is truthy, and is then `res.data` |
| CoreInterceptor.Absorb | src/core-modules/interceptors/response-interceptor/response.interceptor.ts:54-61 | one reduce step adds the entry's key only when property and constraints are truthy, and appends its constraint values under that key and nowhere else |
| CoreInterceptor.AbsorbDetailed | src/core-modules/interceptors/response-interceptor/response.interceptor.ts:56-59 | a detailed entry extends its key's list by its constraint values |
| CoreInterceptor.Reduce | src/core-modules/interceptors/response-interceptor/response.interceptor.ts:54-62 | a `null` or `undefined` last entry makes the reduce throw; a completed reduce keeps every key of the accumulator, and each key's earlier list is a prefix of its final list |
| CoreInterceptor.ReduceDefined | src/core-modules/interceptors/response-interceptor/response.interceptor.ts:54 | the reduce completes exactly when no entry is `null` or `undefined` |
| CoreInterceptor.ReduceKeys | src/core-modules/interceptors/response-interceptor/response.interceptor.ts:53-62 | a completed reduce has as keys the accumulator's plus the properties of the detailed entries |
| CoreInterceptor.ReduceValues | src/core-modules/interceptors/response-interceptor/response.interceptor.ts:53-62 | each key ends holding its prior list followed by the constraint values of the detailed entries with that property, in input order |
| CoreInterceptor.FoldErrors | src/core-modules/interceptors/response-interceptor/response.interceptor.ts:53-62 | the fold from `{}` succeeds exactly when every entry is readable; its keys are exactly the kept entries' properties and each value is the in-order concatenation of their constraint values |
| CoreInterceptor.ErrorPayload | src/core-modules/interceptors/response-interceptor/response.interceptor.ts:49-51 | the payload is an HttpException's response, or what `getResponse()` returns, or, without `getResponse`, a truthy object whose `message` is 'An unexpected error occurred' |
| CoreInterceptor.HandleError | src/core-modules/interceptors/response-interceptor/response.interceptor.ts:37-73 | the status is `getStatus()` for an HttpException and 500 otherwise; it is both written and in the body, with status `false`, no `data`, request path and method. With no `getResponse` the message is 'An unexpected error occurred'. An array message is folded (kept entries only, repeats concatenated), and a `null` entry throws. Any other message is `payload.message \|\| payload`. A `null` thrown value throws |
| CoreInterceptor.Intercept | src/core-modules/interceptors/response-interceptor/response.interceptor.ts:20-29 | a returned value is always written; a written error never carries `data` and has status `false`; the written status always equals the body's |
| CoreInterceptor.ZeroStatusCode | src/core-modules/interceptors/response-interceptor/response.interceptor.ts:87-98 | `formatResponse` computes 0 as the status of a success whose `statusCode` is 0, but 400 for a soft failure with that `statusCode`; whether the write accepts 0 is not modelled |
| CoreInterceptor.PlainObjectHasNoData | src/core-modules/interceptors/response-interceptor/response.interceptor.ts:98-111 | a plain object result without `data` is answered 200, `true`, 'Operation successful', with no `data` key |
| CoreInterceptor.FormatIgnoresTimeOnlyInTimestamp | src/core-modules/interceptors/response-interceptor/response.interceptor.ts:104-112 | formatting the same result twice gives bodies that differ only in the timestamp |
| CoreInterceptor.FoldExample | src/core-modules/interceptors/response-interceptor/response.interceptor.ts:53-62 | a repeated property concatenates its messages in order, and an entry without constraints adds no key |
| CoreInterceptor.NotFoundScenario | src/core-modules/interceptors/response-interceptor/response.interceptor.ts:44-72 | a thrown 404 HttpException with a message payload is written as 404, `false`, that message, no `data` |
| CoreInterceptor.ValidationScenario | src/core-modules/interceptors/response-interceptor/response.interceptor.ts:53-62 | two entries with distinct properties fold into one key each, holding that entry's message |
| SimpleInterceptor.ErrorStatus | src/interceptor/response.interceptor.ts:48-53 | in production every error reports 200; otherwise an HttpException reports `getStatus()` and anything else, `null` included, 500 |
| SimpleInterceptor.Intercept | src/interceptor/response.interceptor.ts:22-69 | a success is emitted exactly for a returned value, as 200 'Success' with the value unchanged as `result`; an error is always thrown on, never emitted. In production it is 200 'Internal server error'. Otherwise an HttpException keeps `getStatus()` and its message, any other value gets 500 and its `message`, and `null` raises a TypeError. Path and method always come from the request |
| SimpleInterceptor.ProductionMasksErrors | src/interceptor/response.interceptor.ts:48-57 | in production the thrown error body is the same whatever was thrown |
| ValidationFilter.FileStep | src/validation-exception/validation-exception.filter.ts:46-57 | one `forEach` step turns the fold of a prefix into the fold of the prefix extended by the entry |
| ValidationFilter.FormatErrors | src/validation-exception/validation-exception.filter.ts:43-60 | it succeeds exactly on an array without `null` entries; every entry's property gets a key even without constraints; no other key appears; each key holds the in-order concatenation of the constraint values of all entries with that property |
| ValidationFilter.Catch | src/validation-exception/validation-exception.filter.ts:21-36 | the status set is `getStatus()`, while the body always has `error: 'Bad Request'` and `statusCode: 400`; the message is the folded map |
| ProductionFilter.Catch | src/exception-filter/custom-exception.filter.ts:20-38 | the status is 200 in production and `getStatus()` otherwise, and is both set and in the body; the message is the exception's message, or 'Internal server error' when that is empty, so it is never empty; method, path and timestamp come from the request and the caller |
| ProductionFilter.ProductionMasksOnlyStatus | src/exception-filter/custom-exception.filter.ts:25-27 | the production flag changes only the status, never the message or other fields |

## Left out

- Numbers are modelled by integer values. `NaN` (falsy), `Infinity`, fractions, `-0`, and the exponent form of very large numbers in string conversion are not modelled.
- Objects are lists of their own enumerable properties, taken to be in the engine's enumeration order. Inherited properties are not read. Keys are assumed distinct (`Js.DistinctKeys`), as in every JavaScript object; the `for…in` reading agrees with `Object.values` only under that assumption.
- Values are never `Error` instances. `Error.prototype.message` is `""`, so reading `message` of an `Error` without its own message gives `""`, not `undefined`. A handler that returns such an `Error`, or a `getResponse()` that returns one, is not modelled (src/core-modules/interceptors/response-interceptor/response.interceptor.ts:53,63,93,101). A thrown value's own `message` is carried as given (src/interceptor/response.interceptor.ts:57), so there the empty default can be passed in as `Str("")`.
- The folded maps are `map`s, so the insertion order of their keys is not modelled.
- A validation `property` that names an `Object.prototype` member (`constructor`, `__proto__`, `toString`, …) is treated as an ordinary key. In the source, such keys interact with the prototype.
- JSON serialisation is not modelled. For example, an `undefined` message in a soft-failure envelope is dropped from the JSON text; the model keeps it as `Undefined`.
- A thrown value with a truthy `getResponse` that is not a function is not modelled; calling it would throw.
- `HttpException.message` is taken as given. How the framework derives it from the constructor arguments is framework code.
- The rxjs `Observable` plumbing and `async`/`await` are left out. So are the rethrow after `handleError` and what the framework does with the `undefined` that `formatResponse` returns. They are framework pipeline behaviour.
- `new Date().toISOString()` is an opaque `timestamp` parameter. `process.env.NODE_ENV` is the `isProduction` parameter. `response.statusCode` before the write is the `responseStatus` parameter.
- A `CreateUserDto`/`UpdateUserDto` property that is present but set to `undefined` is not modelled. An update field is either absent (`None`) or a string. Validation decorators belong to a library that is not modelled.
- src/users/entities/user.entity.ts is not part of this model. A user is its id plus the `CreateUserDto` fields.
- The controller, DTO validation rules, middleware, ORM configuration, schema, `app.module.ts` and `main.ts` are left out. They are routing, declarative configuration or wiring of external libraries.
- Users.Create: the DTO is assumed to carry only its declared fields. The global `ValidationPipe` (src/main.ts:8-14) and the controller's pipes set no `whitelist`, so a request body with an `id` or other extra keys reaches the service unchanged. In `{ id: this.nextId++, ...createUserDto }` (src/users/users.service.ts:19-22) a body `id` overwrites the assigned one, which breaks the distinct-ids invariant. The model does not promise anything about such bodies.
- Users.Update: for the same reason, extra keys in an update body, `id` among them, are merged over the stored user by `{ ...user, ...updateUserDto }` (src/users/users.service.ts:79). The model lets an update carry only `username`, `email` and `password`.
- Users.IdsNeverReused: `nextId` is an unbounded integer. In the source it is a JavaScript number: past 2^53, `nextId++` no longer changes it, so ids would repeat. Likewise Users.Apply and Users.RunKeepsValid assume fewer than 2^53 creations.
- CoreInterceptor.FormatResponse: the write is assumed to accept any status. Node's `writeHead` throws a `RangeError` for a status outside 100-999, so the 0 of CoreInterceptor.ZeroStatusCode would throw inside the `map`. The `catchError` would then route it to `handleError`, which writes 500. That path is not modelled.
- JavaScript strings are sequences of UTF-16 code units. The model uses Dafny `char`s.
