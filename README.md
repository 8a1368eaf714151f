# Dog service request handling, in Dafny

This project models the decision logic of a small Express + Prisma CRUD
service for one resource, the Dog (`id`, `name`, `breed`, `description`,
`age`). Its five `/dogs` route handlers are the part that makes decisions:

- the `POST /dogs` body validator;
- the `PATCH /dogs/:id` body validator;
- the `!id` test on the numeric path id;
- the choice of status and JSON body from what the persistence client answers.

Modules (one file each):

- `Request` (`request.dfy`): a parsed JSON body as an ordered list of
  `(key, value)` entries. This is the order `Object.keys` and
  `Object.entries` iterate in. A value is told apart only as far as `typeof`
  tells it apart: string, number, or other. The module also has the four Dog
  fields, the recognised-key list, property lookup (an absent key is
  `undefined`) and the per-field `typeof` test.
- `Messages` (`messages.dfy`): the error strings `'<key>' is not a valid key`
  and `<field> should be a string|number`. It also has decoders that read a
  message back as the key or field it reports. These let an error list be
  stated by its content and order.
- `Validation` (`validation.dfy`): each validator is given twice.
  - A specification function: `CreateErrors`, `UpdateErrors`.
  - An imperative method that builds the list as the handler does, by
    pushing while it walks the keys and the entries: `ValidateCreate`,
    `ValidateUpdate`, `CollectUnknownKeyErrors`.
  - The methods are proved to compute the functions. The lemmas state what
    the functions promise.
- `Handlers` (`handlers.dfy`): the five handlers as pure functions.
  - Inputs: the coerced id, the body, and a `Persistence` record of
    functions, one per Prisma operation. Each answers with a value or a
    rejection.
  - Output: an `Exchange`, the persistence calls made plus the first
    response. A response is one of: a status with a body; a status set with
    nothing sent (create failure); or a rejection left to the error
    middleware (show lookup failure).

Two behaviours of the code are worth stating up front:

- Only `POST /dogs` stops after unknown-key errors (src/app.ts:55-57).
  `PATCH /dogs/:id` goes on to the type checks, so it reports unknown-key
  errors and type errors together (`UpdateDoesNotShortCircuit`).
- The lookup in `GET /dogs/:id` has no `catch` (src/app.ts:32-36), so a
  rejected lookup goes on to the error middleware (`Unhandled`).

## Model

| member | source | states |
|---|---|---|
| `Request.Lookup` | src/app.ts:46 | Destructuring yields a value exactly when the body has that key, and the value is the one stored under that key. |
| `Request.LookupFindsEntry` | src/app.ts:46 | With distinct keys, looking up an entry's key yields that entry's value. |
| `Request.FieldOf` | src/app.ts:49 | A key names a field exactly when it is in the recognised list `name, breed, description, age`, and that field's key is the key itself. |
| `Request.DistinctKeysCount` | src/app.ts:47 | An object's keys, being distinct, are as many as its entries. |
| `Messages.KeyMessageRoundTrip` | src/app.ts:53 | An unknown-key message decodes back to exactly its key and is never read as a type message. |
| `Messages.KeyOfMessageSound` | src/app.ts:53 | Any string that decodes as an unknown-key message is the message for that key. |
| `Messages.TypeMessageRoundTrip` | src/app.ts:58-69 | A type message decodes back to exactly its field and is never read as an unknown-key message. |
| `Messages.TypeMessageInjective` | src/app.ts:58-69 | Two fields share a type message only if they are the same field. |
| `Validation.CreateErrors` | src/app.ts:51-72 | The errors `POST /dogs` answers with. Its contract is given by `CreateAcceptsIff`, `CreateRejectsUnknownKeysAlone` and `CreateTypeErrorsExact`, and `ValidateCreate` is proved to compute it. |
| `Validation.UpdateErrors` | src/app.ts:103-125 | The errors `PATCH /dogs/:id` answers with. Its contract is given by `UpdateErrorsLayout`, `UpdateTypeMessageIff` and `UpdateAcceptsIff`, and `ValidateUpdate` is proved to compute it. |
| `Validation.CollectUnknownKeyErrors` | src/app.ts:51-54 | The loop pushing one error per unrecognised key computes the unknown-key error list of the keys, in order. |
| `Validation.ValidateCreate` | src/app.ts:44-72 | The create checks (unknown-key loop, stop, four typeof tests) compute `CreateErrors(body)`. |
| `Validation.ValidateUpdate` | src/app.ts:103-128 | The update checks (unknown-key loop, then the entry loop with four typeof tests) compute `UpdateErrors(body)`. |
| `Validation.UnknownKeyErrorsAreKeyMessages` | src/app.ts:51-54 | The unknown-key pass emits exactly `'<key>' is not a valid key` for each unknown key, in key order, and nothing else. |
| `Validation.UpdateTypeErrorsAreTypeMessages` | src/app.ts:107-125 | The entry pass emits exactly the type message of each recognised entry with a wrong-typed value, in entry order, and nothing else. |
| `Validation.CheckEntry` | src/app.ts:107-125 | The per-entry callback appends to the list exactly the type error that entry earns: that field's message when the key is recognised and the value has the wrong type, nothing otherwise. |
| `Validation.NoUnknownKeyErrorsIff` | src/app.ts:51-55 | The unknown-key pass is silent exactly when every key is recognised. |
| `Validation.UnknownKeyErrorsReportUnknownKeys` | src/app.ts:51-54 | The unknown-key pass emits one message per unknown key, in key order; every message decodes to a key and none to a field. |
| `Validation.CreateRejectsUnknownKeysAlone` | src/app.ts:51-57 | With an unknown key, create's error list is exactly the unknown-key message of each unknown key, in key order. It is non-empty and holds no type message. |
| `Validation.CreateTypeErrorsMember` | src/app.ts:58-69 | A field's message is among the four type checks' output exactly when that field is missing or has the wrong type. |
| `Validation.CreateTypeErrorsInOrder` | src/app.ts:58-69 | The four type checks emit an in-order sublist of the four messages (name, breed, description, age). |
| `Validation.CreateTypeErrorsExact` | src/app.ts:58-72 | With all keys recognised, a field's type message is in the list exactly when that field is missing or mistyped, and the list is an in-order sublist of the four messages. |
| `Validation.CreateAcceptsIff` | src/app.ts:51-72 | Create validation passes exactly when every key is recognised and all four fields are present with their types. |
| `Validation.CreateAcceptsFourFields` | src/app.ts:51-72 | A body with only recognised keys whose four fields pass their tests passes create validation. |
| `Validation.CreateAcceptedBodyIsExact` | src/app.ts:47-72 | A body that passes create validation has exactly the keys `name, breed, description, age` and four entries. |
| `Validation.UpdateErrorsLayout` | src/app.ts:103-125 | Update's error list is exactly the unknown-key messages (one per unknown key, in key order) followed by the type messages (one per mistyped recognised entry, in entry order). |
| `Validation.UpdateTypeMessageIff` | src/app.ts:107-125 | With distinct keys, a field's type message is in update's list exactly when the body has that field with the wrong type; an absent field earns nothing. |
| `Validation.UpdateAcceptsIff` | src/app.ts:103-128 | Update validation passes exactly when every entry has a recognised key and a value of its type, so the empty body passes. |
| `Validation.CreateAcceptedImpliesUpdateAccepted` | src/app.ts:103-125 | With distinct keys, every body create accepts is also a patch update accepts. |
| `Validation.UpdateAcceptedCompleteImpliesCreateAccepted` | src/app.ts:58-72 | A patch that update accepts and that has all four fields passes create validation. |
| `Validation.UpdateDoesNotShortCircuit` | src/app.ts:51-125 | For any body of one unknown key followed by a non-numeric `age`, create reports only the unknown key, while update reports the unknown key and then the age type error. |
| `Handlers.Truthy` | src/app.ts:27 | The `!id` test on the coerced id. Its contract is given by `FalsyIds`. |
| `Handlers.HandleList` | src/app.ts:14-22 | `GET /dogs`. Its contract is given by `ListOutcome` and `StatusTable`. |
| `Handlers.HandleShow` | src/app.ts:25-41 | `GET /dogs/:id`. Its contract is given by `ShowOutcome` and `StatusTable`. |
| `Handlers.CreateData` | src/app.ts:73-80 | The data handed to `create`. Its contract is given by `AcceptedBodyHasData` and `CreateDataIsBodyValues`. |
| `Handlers.HandleCreate` | src/app.ts:44-87 | `POST /dogs`. Its contract is given by `CreateOutcome`, `StatusTable` and `CreateCompleteBody`. |
| `Handlers.HandleUpdate` | src/app.ts:90-143 | `PATCH /dogs/:id`. Its contract is given by `UpdateOutcome`, `StatusTable` and `PatchAbsentScenario`. |
| `Handlers.HandleDelete` | src/app.ts:146-165 | `DELETE /dogs/:id`. Its contract is given by `DeleteOutcome` and `StatusTable`. |
| `Handlers.FalsyIds` | src/app.ts:27 | The `!id` test rejects exactly the ids that coerce to 0 or NaN. |
| `Handlers.AcceptedBodyHasData` | src/app.ts:58-80 | A body that passes create validation supplies string name, breed, description and numeric age. |
| `Handlers.CreateDataIsBodyValues` | src/app.ts:73-80 | The values handed to `create` are exactly the body's own four values. |
| `Handlers.ListOutcome` | src/app.ts:14-22 | List makes one `findMany`. It answers 200 with every record (possibly none), or 404 `{error: "No content"}` on failure. |
| `Handlers.ShowOutcome` | src/app.ts:25-41 | Show: a falsy id gives 400 `{message}` with no lookup. Otherwise one lookup, then 204 `{error}` if null, 200 with the record if found. A rejected lookup goes to the error middleware. |
| `Handlers.CreateOutcome` | src/app.ts:44-87 | Create: persistence is called exactly when validation passes, once, with the body's values. The answer is 400 `{errors}`, 201 with the record, or 500 with nothing sent. |
| `Handlers.UpdateOutcome` | src/app.ts:90-143 | Update: a falsy id gives 400 whatever the body. Otherwise 400 `{errors}` when validation fails, else one `update` with the body unchanged, then 201 with the record or 204 `{error}` on rejection. |
| `Handlers.DeleteOutcome` | src/app.ts:146-165 | Delete: a falsy id gives 400 with no call. Otherwise one `delete`, then 200 with the record or 204 `{error}` on rejection. |
| `Handlers.StatusTable` | src/app.ts:14-165 | Every handler makes at most one persistence call and answers only with the statuses of its row: list 200/404; show 200/204/400, or the request is left to the error middleware; create 201/400/500; update 201/204/400; delete 200/204/400. |
| `Handlers.CreateCompleteBody` | src/app.ts:44-86 | A body `{name, breed, description, age}` with the right types is created with exactly those values and answered 201 with the stored record. |
| `Handlers.CompleteBodyAccepted` | src/app.ts:51-80 | A body `{name, breed, description, age}` with the right types passes create validation, and `create` receives exactly those values. |
| `Handlers.PatchAbsentScenario` | src/app.ts:130-140 | `PATCH /dogs/999 {age: 5}` whose update rejects (id absent) is answered 204 `{error: "No content"}`. |

## Left out

- `GET /` (the liveness route): it makes no decision.
- Express app construction, the JSON body parser, `app.listen` and port
  selection: framework and I/O plumbing.
- The Prisma client and the database: they are the `Persistence` parameter.
  Id assignment and storage are not modelled, so the create-then-fetch round
  trip is not stated.
- `errorHandleMiddleware` and `express-async-errors`: the error-handler file
  is not part of this model. A rejection that reaches them is the
  `Unhandled` response.
- `console.error` logging: a side effect with no decision.
- The `+string` Number coercion of the path id (whitespace, hex, exponents,
  fractions). The model takes the coerced number as its input and models
  only the `!id` test on it.
- Floating point: `age` is an opaque number (a `real` on which nothing
  computes).
- Async sequencing. In `GET /dogs/:id`, a null lookup sends 204 and then
  falls through to a second send; only the first response is modelled.
- Request bodies with repeated keys cannot occur for a JavaScript object.
  Lemmas whose statement depends on it require `DistinctKeys`.
- Key order: the body is taken in the order `Object.keys` yields, which puts
  integer-like keys first. That reordering is not modelled.
- The handlers are pure functions without contracts of their own. What they
  promise is stated by the `*Outcome` lemmas and `StatusTable`.
