# User-profile form controller, modelled in Dafny

The client of this user directory is one React component (`App`) that keeps
four pieces of state: the list of users fetched from the REST API, the draft
`form` (`id`, `name`, `email`, `number`, `avatar`), the Create/Edit flag
`isEditing`, and the visible `error` message. Its handlers filter keystrokes,
validate the draft with three regular expressions, and create, update, delete
and refetch records over HTTP.

The project has three modules:

- `Validation` (`validation.dfy`): the name filter `/^[a-zA-Z\s]*$/`, the
  phone check `/^[0-9]{10}$/` and the email check
  `/^[^\s@]+@[^\s@]+\.[^\s@]+$/` as predicates on strings. Each is tied to an
  independent reading of the regex. The name filter equals "every character is
  a letter or whitespace". The phone check equals "ten characters, all digits".
  The email checker equals the existential split `local@domain.tld` into three
  non-empty runs of `[^\s@]`, proved in both directions. Concrete accepted and
  rejected inputs are proved too. Whitespace is JavaScript's `\s`, written out
  by code point.
- `Controller` (`controller.dfy`): the data model (`Form`, `User`, `Payload`,
  the four `AvatarOptions`, the fixed messages) and every handler as a pure
  transition from the old `State` and the abstract outcomes of its HTTP
  requests to the new `State` and the requests issued. Contracts state which
  fields change and which stay the same. They also show the invariant
  `Inv` is preserved: the draft has an identifier exactly in Edit mode.
- `Component` (`component.dfy`): class `App` with the four state slots as
  fields. Each handler is a method that assigns the fields the way the
  component calls its setters. Its postcondition says the new state is the
  `Controller` transition of the old one, and `Valid()` is kept.

HTTP calls are inputs. A `Response<T>` is `Ok(data)`, or `Err(message)`
where `message` is the optional `response.data.message`. The answer to
`window.confirm` is a `confirmed: bool`. A handler that issues requests also
returns them in order: `Post`/`Put`/`Delete`, then the refetch `Get`.

## Model

| member | source | states |
|---|---|---|
| `Validation.IsWs` | client/my-app/src/App.js:38 | JavaScript's `\s`, by code point; no whitespace character is a letter, a digit, '@' or '.' |
| `Validation.NameAllowed` | client/my-app/src/App.js:38 | the name regex as a star over `[a-zA-Z\s]`; an accepted value holds no digit and no '@' |
| `Validation.NameAllowedIff` | client/my-app/src/App.js:38 | the name regex accepts a value exactly when every character is an ASCII letter or whitespace |
| `Validation.NameRejectsNonNameChar` | client/my-app/src/App.js:38 | one digit or symbol anywhere makes the name filter refuse the value |
| `Validation.NameExamples` | client/my-app/src/App.js:38 | "Ann Lee", "" and blanks pass; "Ann2" and "O'Brien" are refused |
| `Validation.ValidNumber` | client/my-app/src/App.js:46 | validateNumber as `[0-9]{10}`; an accepted value has exactly ten characters |
| `Validation.DigitRunIff` | client/my-app/src/App.js:46 | `[0-9]{n}` matches exactly the strings of length n made only of digits |
| `Validation.ValidNumberIff` | client/my-app/src/App.js:46 | validateNumber holds exactly when the length is 10 and every character is in '0'..'9' |
| `Validation.NumberAccepted` | client/my-app/src/App.js:46 | "1234567890" passes |
| `Validation.NumberTooShortOrLong` | client/my-app/src/App.js:46 | "", "123" and an 11-digit string fail |
| `Validation.NumberRejectsNonDigit` | client/my-app/src/App.js:46 | any string with a character outside '0'..'9' at any position fails |
| `Validation.NumberNonDigit` | client/my-app/src/App.js:46 | "123456789a" and "123 456789" fail |
| `Validation.IndexOf` | client/my-app/src/App.js:45 | the result is the first position of the character, or the length when it is absent |
| `Validation.ValidEmail` | client/my-app/src/App.js:45 | validateEmail as a scan for the first '@' and the runs on both sides of it; an accepted string has at least five characters and does not start with '@' |
| `Validation.ValidEmailSound` | client/my-app/src/App.js:45 | every accepted email splits as l + "@" + d + "." + t with three non-empty runs free of whitespace and '@' |
| `Validation.ValidEmailComplete` | client/my-app/src/App.js:45 | every such split is accepted |
| `Validation.ValidEmailIff` | client/my-app/src/App.js:45 | validateEmail holds exactly of the local@domain.tld shape |
| `Validation.EmailAccepted` | client/my-app/src/App.js:45 | "foo@bar.com" and "ann@x.com" pass |
| `Validation.EmailAcceptsDottedDomain` | client/my-app/src/App.js:45 | the domain run may contain dots, even a leading one ("a@b.c.d", "a@.b.c") |
| `Validation.EmailRejectedIncomplete` | client/my-app/src/App.js:45 | "", "foo", "foo@" and "foo@bar" fail |
| `Validation.EmailRejectsLeadingAt` | client/my-app/src/App.js:45 | every string that begins with '@' (empty local part) fails |
| `Validation.EmailRejectsSecondAt` | client/my-app/src/App.js:45 | every string with two '@' characters fails |
| `Validation.EmailRejectsWhitespace` | client/my-app/src/App.js:45 | every string with a whitespace character anywhere fails |
| `Validation.EmailRejectedMisplaced` | client/my-app/src/App.js:45 | "@bar.com" and "a@b@c.d" fail; "foo@bar." fails because no character follows its only dot |
| `Validation.EmailRejectedWhitespace` | client/my-app/src/App.js:45 | "fo o@bar.com" fails |
| `Controller.SetField` | client/my-app/src/App.js:42 | the spread update sets the named field to the value and keeps every other field |
| `Controller.WithIds` | client/my-app/src/App.js:28 | the mapped list has the response's length and order, element i taking `id` from `_id` and keeping its other fields |
| `Controller.InitialState` | client/my-app/src/App.js:5-19 | four distinct avatar images; the initial draft is empty with no id and the first avatar; the initial state is Create mode, no users, no error, and keeps `Inv` |
| `Controller.FormOf` | client/my-app/src/App.js:124 | the draft installed for a record has an identifier, and reading the record back from it gives the record: nothing is lost |
| `Controller.FormOfUserOf` | client/my-app/src/App.js:124 | the other direction: a draft with an identifier is the draft of the record it stands for |
| `Controller.PayloadLosesOnlyId` | client/my-app/src/App.js:76-81 | the request body of a draft forgets exactly its `id`: two drafts give the same body iff they agree on every other field |
| `Controller.ErrorText` | client/my-app/src/App.js:88 | a present, non-empty server message is shown; a missing or empty one gives the fallback; the result is never empty |
| `Controller.FirstFailure` | client/my-app/src/App.js:48-63 | None exactly when name, email and number all pass; otherwise the message of the first failing check, in that order |
| `Controller.ValidateForm` | client/my-app/src/App.js:48-63 | returns true exactly when all checks pass, then clears `error`; otherwise stores the first failure's message; list, draft and mode unchanged |
| `Controller.BlankNamePasses` | client/my-app/src/App.js:49 | in every state, a non-empty whitespace-only name passes the keystroke filter and is not reported missing; with a valid email and number the form passes |
| `Controller.FetchUsers` | client/my-app/src/App.js:25-33 | success replaces the list with the mapped response and keeps `error`; failure keeps the list and sets the fixed message; draft and mode unchanged |
| `Controller.HandleChange` | client/my-app/src/App.js:35-43 | only the named field can change; a name value the filter refuses leaves the state as it was; other inputs store the value unfiltered |
| `Controller.NameInputFilter` | client/my-app/src/App.js:38-42 | an all-letters-and-whitespace name value is stored and nothing else changes; any other character leaves the whole state unchanged |
| `Controller.ApplyEditsKeepsId` | client/my-app/src/App.js:42 | any sequence of keystrokes keeps the draft's identifier, the mode and the list |
| `Controller.SelectAvatar` | client/my-app/src/App.js:171 | only the draft's avatar changes |
| `Controller.ResetForm` | client/my-app/src/App.js:65-69 | empty draft with the first avatar and no id, Create mode, no error, list kept |
| `Controller.EditUser` | client/my-app/src/App.js:123-127 | the draft is the record, Edit mode, no error, list kept |
| `Controller.Submit` | client/my-app/src/App.js:72-110 | the shared body of add and update: invalid draft gives no request and the first failure's message; success sends the request then the refetch and ends in the reset state; failure sends only the request and shows the server message or the fallback |
| `Controller.AddUser` | client/my-app/src/App.js:72-90 | invalid draft: no request, only `error` set; valid: posts the four data fields; success refetches and resets; failure keeps draft and mode and shows the server message or "Failed to add user." |
| `Controller.UpdateUser` | client/my-app/src/App.js:92-110 | as AddUser, but puts to the draft's `id` with fallback "Failed to update user." |
| `Controller.DeleteUser` | client/my-app/src/App.js:112-121 | unconfirmed: no request and no change; confirmed: deletes the id, then refetches on success or shows the message or "Failed to delete user."; draft and mode never change |
| `Controller.SubmittedPayloadsValid` | client/my-app/src/App.js:72-110 | every posted or put body has a non-empty name, a valid email and a valid number |
| `Controller.UpdateTargetsEditedRecord` | client/my-app/src/App.js:103 | in Edit mode the update's target is the edited record's identifier, never `null` |
| `Controller.EditThenUpdate` | client/my-app/src/App.js:123-127 | selecting a record, typing, then updating puts the edited fields to that record's id |
| `Controller.SubmitSuccessResets` | client/my-app/src/App.js:85-86 | a successful add or update equals the refetch followed by the reset, so the form ends in Create mode |
| `Component.App.constructor` | client/my-app/src/App.js:16-19 | the initial state: no users, empty draft, Create mode, no error |
| `Component.App.FetchUsers` | client/my-app/src/App.js:25-33 | new fields equal `Controller.FetchUsers` of the old ones |
| `Component.App.HandleChange` | client/my-app/src/App.js:35-43 | new fields equal `Controller.HandleChange` of the old ones |
| `Component.App.SelectAvatar` | client/my-app/src/App.js:171 | new fields equal `Controller.SelectAvatar` of the old ones |
| `Component.App.ValidateForm` | client/my-app/src/App.js:48-63 | result and new fields equal `Controller.ValidateForm` of the old ones |
| `Component.App.ResetForm` | client/my-app/src/App.js:65-69 | new fields equal `Controller.ResetForm` of the old ones |
| `Component.App.EditUser` | client/my-app/src/App.js:123-127 | new fields equal `Controller.EditUser` of the old ones |
| `Component.App.AddUser` | client/my-app/src/App.js:72-90 | new fields and issued requests equal `Controller.AddUser` of the old state |
| `Component.App.UpdateUser` | client/my-app/src/App.js:92-110 | new fields and issued requests equal `Controller.UpdateUser` of the old state |
| `Component.App.DeleteUser` | client/my-app/src/App.js:112-121 | new fields and issued requests equal `Controller.DeleteUser` of the old state |

## Left out

- Rendering (the JSX, the `maxLength="10"` on the number input and `useEffect`) is UI only. The mount-time fetch is `App.FetchUsers` called by whoever drives the class.
- HTTP (axios) and `window.confirm` become input values; the API base address is not modelled.
- Refetch ordering: `fetchUsers()` is not awaited before `resetForm()` in addUser and updateUser. The model runs them in code order: refetch, then reset. So a refetch that fails after a successful submit leaves `error` empty here. In the browser `fetchUsers` always suspends at its `await` before `resetForm` runs, so its failure message is set after the reset and stays visible.
- Extra fields of server records (such as `_id` itself and the store's version key) are dropped. `User` keeps only `id` (equal to `_id`) and the four data fields. So `editUser` installs exactly those five fields.
- Field values are strings. JavaScript values of other types (e.g. a record with a missing `name`, which is falsy like `""`) are not modelled.
- A server `message` that is not a string is not modelled.
- Regexes run on UTF-16 code units in JavaScript, while Dafny's `char` is a Unicode scalar value. The model treats a character outside the Basic Multilingual Plane as one character, not two surrogates. For these three patterns the verdict is the same: such a character is never a letter, digit, whitespace, '@' or '.', and the only pattern that counts characters (`[0-9]{10}`) rejects them anyway.
- The server (`server/server.js`) and the routes it mounts are not part of this model. The routes module is outside this model, and the rest is process wiring.
