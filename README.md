# Booksalema client: signup submission and GraphQL client policies

A Dafny model of the two pieces of client-side logic in the booksalema mobile
app (a React Native client of a book-lending GraphQL API):

- **The signup form's submission state machine** (`src/signup/index.js`). The
  screen component holds a mutable state:
  - `values`: name, email, password and confirmPassword
  - `errors`: a field-to-message map
  - `isSubmitting` and `loading`

  `submit` ignores a second press while a submission is flagged. It then
  validates the values, and refuses to contact the server while `errors` is
  non-empty. Otherwise it flags the submission and calls the signup mutation
  with name, email and password. Server-reported errors are stored and the
  form is left as it is; a response without errors resets everything to
  `defaultState`. `onChangeText` sets one value, drops that field's error and
  clears `isSubmitting`.

  The component is the class `Signup.Signup` with one field per state entry.
  Its methods `Submit` and `OnChangeText` update the fields step by step, as
  the handlers' `setState` calls do. Each is proved against a pure transition
  function (`Signup.Submitted`, `Signup.Edited`), and the lemmas state the
  properties about those functions and about whole sessions (`Signup.Run`).
- **The GraphQL client's policy functions** (`apollo.js`):
  - the `Authorization` header that the authentication link attaches to every
    operation;
  - the cache key of the paginated `getAvailableBooks` field, which keeps only
    `searchString` and `typeCode`;
  - the field's `merge`, which appends each incoming page after the cached list.

  These are pure functions in module `Apollo`. `Apollo.StorePage` is a minimal
  model of the cache applying the policy: the field's entries keyed by storage key.

Inputs the model takes instead of computing them:
- The schema validation and its error formatter become `Submit`'s `validation`
  argument: `None` when the schema accepts the values, otherwise the
  formatted error map.
- The signup mutation and the server-error formatter become its `outcome`
  argument: `ServerRejected(formattedErrors)` or `Accepted(token, user)`.
  The mutation is observable through `Submit`'s result, the variables it was
  called with, or `None` when the network was not contacted.
- The token read from device storage is an `Option<string>`.

Behaviour of the code a reader might not expect:
- After the server reports errors, the code leaves `isSubmitting` true. Every
  further submit is therefore a no-op until an edit
  (`Signup.RejectedFormLockedUntilEdit`).
- When no token is stored, the header is sent as the empty string.
- A response whose `errors` is an empty list is still truthy in JavaScript.
  It takes the server-error path, which stores whatever `formatServerErrors`
  makes of the empty list and keeps the form locked.

## Model

| member | source | states |
|---|---|---|
| `Apollo.AuthorizationHeader` | apollo.js:20 | the header is empty exactly when the token is absent or empty; otherwise it is `"Bearer "` followed by the token |
| `Apollo.AuthContext` | apollo.js:15-23 | the returned context's headers have exactly one key, `Authorization`: `"Bearer " + token` for a non-empty token, `""` otherwise |
| `Apollo.HeaderRoundTrip` | apollo.js:20 | reading the bearer credential back out of the header gives the stored token, or nothing when the token is falsy |
| `Apollo.HeaderInjective` | apollo.js:20 | two tokens, at least one non-empty, with the same header are the same token |
| `Apollo.StorageKey` | apollo.js:48-51 | the entry key holds exactly the arguments named `searchString` and `typeCode` that are present, with their values |
| `Apollo.SameEntryIff` | apollo.js:51 | two argument sets share a cache entry if and only if they agree on the presence and values of `searchString` and `typeCode` |
| `Apollo.PaginationArgsIgnored` | apollo.js:49-51 | setting or removing any other (pagination) argument leaves the entry key unchanged |
| `Apollo.SearchStringsSeparate` | apollo.js:51 | different search strings never share an entry |
| `Apollo.Merge` | apollo.js:54-56 | length is the sum of the lengths; the cached list (empty when absent) is the prefix and the incoming page the suffix; the multiset of items is the sum, so nothing is de-duplicated |
| `Apollo.MergeFirstPage` | apollo.js:54 | merging into no cached list returns the first page unchanged |
| `Apollo.MergeAssociative` | apollo.js:55 | merging `a` then `b` equals merging `a ++ b` |
| `Apollo.MergeEach` | apollo.js:54-56 | after any number of successive merges the cached list is still a prefix of the result |
| `Apollo.MergeEachIsConcatenation` | apollo.js:54-56 | successive merges of pages give the cached list followed by every page in arrival order |
| `Apollo.StorePage` | apollo.js:44-57 | storing a page touches only the entry of its storage key; that entry becomes the old list (or nothing) followed by the page |
| `Apollo.PagesAccumulate` | apollo.js:48-56 | pages fetched with arguments agreeing on the key arguments accumulate in one list, whatever their pagination arguments; other entries are untouched |
| `Signup.Values.With` | src/signup/index.js:62-66 | the edited field gets the new text; the other three values are unchanged |
| `Signup.Submitted` | src/signup/index.js:24-55 | a mutation call happens only when no submit was flagged, and it carries the current name, email and password; at the moment of the call the state is the old one with `isSubmitting` true and empty errors; without a call, values and `loading` are unchanged |
| `Signup.Edited` | src/signup/index.js:57-70 | sets the edited value and keeps the others; removes only that field's error and keeps the other entries and messages; clears `isSubmitting`; keeps `loading` |
| `Signup.DefaultStateIsEmpty` | src/signup/index.js:9-19 | `defaultState` has four empty values, no errors, and both flags false |
| `Signup.Signup.constructor` | src/signup/index.js:22 | the component starts in `defaultState` |
| `Signup.Signup.Submit` | src/signup/index.js:24-55 | the new state and the mutation call are those of `Submitted`, and (asserted at the call point, not promised to callers) the fields equal its in-flight state when the request is made; a flagged submit changes no field and calls nothing; a call happens only with empty errors after validation |
| `Signup.Signup.OnChangeText` | src/signup/index.js:57-70 | the new state is `Edited` of the old one |
| `Signup.SubmitWhileSubmittingIgnored` | src/signup/index.js:25-27 | a submit while `isSubmitting` leaves the state unchanged and sends nothing, whatever validation and server would answer |
| `Signup.InvalidFormNotSent` | src/signup/index.js:30-40 | failed validation replaces `errors` wholesale, leaves `isSubmitting` false and sends nothing |
| `Signup.SentIffNoErrors` | src/signup/index.js:36-45 | the mutation is called if and only if no submit was flagged and `errors` is empty after validation |
| `Signup.LeftoverErrorsBlock` | src/signup/index.js:36-40 | with validation passing, leftover errors block the network call and change nothing |
| `Signup.ConfirmPasswordNeverSent` | src/signup/index.js:43-45 | the variables are exactly name, email and password; changing confirmPassword does not change what is sent |
| `Signup.PressWhileInFlightIgnored` | src/signup/index.js:25-45 | while the mutation is in flight `isSubmitting` is true, and a press in that state changes nothing and sends nothing |
| `Signup.ServerErrorsKept` | src/signup/index.js:47-50 | on a server rejection the errors become the formatted server errors; values are kept, `isSubmitting` stays true, no reset |
| `Signup.SuccessResets` | src/signup/index.js:54 | on a response without errors the state is `defaultState`: four empty values, no errors, neither flag set |
| `Signup.Run` | src/signup/index.js:24-70 | a session of presses and edits makes at most one mutation call per press; edits send nothing |
| `Signup.PressesIgnoredWhileSubmitting` | src/signup/index.js:25-27 | while a submit is flagged, any number of presses change nothing and send nothing |
| `Signup.RejectedFormLockedUntilEdit` | src/signup/index.js:47-68 | after a server rejection, presses are no-ops until an edit, and any edit clears the flag |
| `Signup.RejectedPressesSendAtMostOnce` | src/signup/index.js:25-50 | a run of presses whose answers are all server rejections reaches the server at most once |
| `Signup.ForeignErrorBlocks` | src/signup/index.js:36-60 | an error under a key that is none of the four fields is never removed by edits, and it blocks every submit while validation passes |

## Left out

- Schema validation (`registrationSchema.validate`), `formatYupErrors` and `formatServerErrors` live in `src/utils/`. That directory is not part of this model. Their results are inputs of `Submit`.
- The signup mutation and all networking: the Apollo client, the upload link, and the composition of the authentication link with the upload link (apollo.js:40-67). These are library calls and network I/O.
- The path where `mutate` throws, or returns without a `signup` payload. The handler does not catch it, so it would only leave `isSubmitting` true.
- Reading the token from device storage (apollo.js:16) is asynchronous I/O. The token is an input.
- Asynchrony of `setState` and of `async`/`await`. Handlers run to completion, in sequence, and this loses two interleavings:
  - `isSubmitting` is set only at src/signup/index.js:42, after the validation `await` at :31. A second press during validation passes the guard at :25 and can start a second submission.
  - An edit during the mutation's `await` (:45) clears `isSubmitting` (:68), which re-enables the button (:105). A second press can then send a second mutation, and the first response overwrites the edit (:48 or :54).
  - `Signup.PressWhileInFlightIgnored` and `Signup.RejectedPressesSendAtMostOnce` therefore hold only when each handler runs to completion before the next starts.
- Apollo.Merge: a `null` incoming page (a response carrying null for the field) makes the spread at apollo.js:55 throw a TypeError; `incoming` is a list, so that case is not modelled.
- The normalised cache's internals: entity normalisation, and the serialisation of the storage key to a string. `Apollo.StorageKey` gives the key as the projected argument map.
- `loading` is never set to true by the modelled code. It is carried, and reset only by the success path.
- `Signup.Signup.OnChangeText` takes one of the four fields. The screen only calls it with those keys; an arbitrary key string is not modelled.
- Rendering, styles, icons and logging, `src/checkout/userCheckouts.js` (a list screen with a status badge) and `src/settings/index.js` (a menu and token removal). These are presentation and device I/O.
