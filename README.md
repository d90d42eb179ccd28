# Clinic records: a verified model of the request handlers

The application lets doctors register, log in and keep patient records. Each
doctor sees and changes only the patients they own. This project models its
state and its handlers in Dafny:

- the state is the Doctor table and the Patient table (maps from id to row),
  the two id counters of the store, and one browser's session, which may bind
  `doctor_id` and `doctor_name`;
- each route handler is a method of the class `App.Clinic`;
- a handler's result is a `Models.Response`: a redirect with a flash kind, a
  rendered page, `NotFound` (the 404 of `get_or_404`) or `ServerError` (an
  uncaught `ValueError` from a conversion, an integer the store cannot bind,
  or an uploaded file that cannot be saved).

Every state-changing method preserves `Clinic.Valid()`:

- emails are unique;
- every row's id is its key and lies below the counter;
- every patient's owner exists;
- a bound session names an existing doctor under that doctor's name.

Each patient handler also ensures `NonOwnersUntouched`: a row that the caller
does not own is still present and unchanged afterwards. When nobody is logged
in, that covers every row.

Files:

- `wrappers.dfy`: `Option`.
- `text.dfy`: Python's `str.strip()` over the `str.isspace` character set, and
  `",".join`. `Split` is the partner of `Join`.
- `passwords.dfy`: salted hashing over an abstract key derivation.
- `models.dfy`: the rows, form input, responses and the dashboard filter.
- `clinic.dfy`: the handlers.
- `scenarios.dfy`: properties that span several requests.

Behaviour reproduced as the code has it:

- A blank `age` or `weight` is stored as nothing on create (`app.py:91`,
  `app.py:105`, `app.py:108`) but as zero on edit (`app.py:129`,
  `app.py:132`).
- Registration and login strip the password before hashing or checking it
  (`app.py:46`, `app.py:65`).
- An edit or delete of an id that does not exist answers 404. One that exists
  but belongs to another doctor answers a redirect. The two answers differ
  (`app.py:123-126`, `app.py:149-152`), so a logged-in doctor can tell whether
  an id exists.
- Text that `int()` or `float()` cannot convert raises. The model answers
  `ServerError` and commits nothing: on create before the row is added, on
  edit before the changed row is written back.
- SQLite's INTEGER is signed 64-bit, and an integer outside that range cannot
  be bound to a statement. An age outside it makes the commit raise
  (`app.py:114`, `app.py:140`). A patient id outside it makes the lookup raise
  (`app.py:123`, `app.py:149`); the `<int:pid>` route accepts any
  non-negative number. The model answers `ServerError` and stores nothing.
- `secure_filename` can turn a non-empty upload name into "" (for `../`, or a
  name made only of non-ASCII letters). The save then targets the upload
  folder itself and raises, before anything is committed (`app.py:99-101`,
  `app.py:136-138`). The model answers `ServerError` and stores nothing
  (`Models.ImageNamed`).
- The register, login, new-patient and edit routes serve both GET and POST.
  `Register` and `Login` take a `post` flag: a GET renders the form and
  changes nothing. The GET and POST branches of the patient routes are
  separate methods (`NewPatientView`, `EditPatientView`).

## Model

| member | source | states |
|---|---|---|
| `Text.Strip` | app.py:44-46 | the result is empty exactly when every character of the input is Python whitespace; otherwise it starts and ends with non-whitespace, and it is a slice of the input flanked only by whitespace |
| `Text.StripIdempotent` | app.py:64-65 | stripping an already stripped value changes nothing, so a stored stripped email or password compares equal to the same input stripped again at login |
| `Text.Join` | app.py:96 | the stored string is the values in order with one comma between each two: its length is the values' total length plus the separators, and it starts with the first value; `JoinOfSplit` and `SplitOfJoin` give its inverse |
| `Text.Split` | app.py:96 | not an operation of the application but the inverse partner of the join there, Python's `split(",")`: the pieces between commas: at least one piece, and no piece holds a comma |
| `Text.JoinOfSplit` | app.py:96 | joining the comma-split pieces of any stored allergies string gives that string back |
| `Text.SplitOfJoin` | app.py:134 | for a non-empty selection with no comma in any value, the stored allergies string splits back into exactly the selected values |
| `Text.JoinConflatesCommas` | app.py:96 | the flattening is lossy: a value containing a comma is stored like two values, and no selection is stored like one empty value |
| `Passwords.GeneratePasswordHash` | app.py:50 | the stored hash carries the drawn salt and checks against the password it was made from |
| `Passwords.CheckPasswordHash` | app.py:67 | re-derives with the stored salt and compares digests; with an injective derivation, no password other than the one that passes can pass |
| `Passwords.CheckOnlyOwnPassword` | app.py:67 | with an injective derivation, a hash checks against a password exactly when it is the password the hash was made from |
| `Models.OrNone` | app.py:105 | on create, a blank number gives no value and a converted number gives that number |
| `Models.OrZero` | app.py:129 | on edit, a blank number gives zero and a converted number gives that number |
| `Models.OwnedBelow` | app.py:82 | lists every row with the given owner and id below the bound, and nothing else, in strictly ascending id order, so each row appears once |
| `App.Clinic.constructor` | app.py:18-34 | the store starts with empty Doctor and Patient tables and no session, and satisfies the invariant |
| `App.Clinic.Register` | app.py:41-59 | a GET renders the form and changes nothing; on a POST, if a stripped field is empty: "fill all fields", no doctor added; if the stripped email is taken: "already registered", Doctor table unchanged; otherwise exactly one doctor is added under a fresh id, with the stripped name and email and the hash of the stripped password; emails stay unique |
| `App.Clinic.Login` | app.py:61-74 | a GET renders the form with no message and leaves the session as it was; on a POST the session is bound, with a redirect to the dashboard, exactly when a doctor has that exact stripped email and a hash that checks against the stripped password; otherwise the answer is the same "invalid email or password" for an unknown email and for a wrong password, and the session is unchanged; the tables are never changed |
| `App.Clinic.Logout` | app.py:167-172 | both session keys are cleared whatever the prior session; the answer is a redirect home; the tables are not touched |
| `App.Clinic.Dashboard` | app.py:76-83 | with no session: redirect to login with "please log in first"; with a session: the listing holds exactly the patients whose owner is the session's doctor, in ascending id order |
| `App.Clinic.NewPatientView` | app.py:85-117 | a GET without a session redirects to login; with a session it renders an empty patient form |
| `App.Clinic.CreatePatient` | app.py:85-116 | without a session, when the upload's sanitised name is empty so the save raises, when a number does not convert, or when the age is outside 64 bits, the Patient table and counter are unchanged; otherwise exactly one patient is added under a fresh id. It is owned by the session's doctor, holds the stripped name, and has blank numbers as no value. Its allergies are the selection joined with commas, and its image is the uploaded file name or none. Rows of other owners are untouched |
| `App.Clinic.EditPatientView` | app.py:119-143 | a GET is gated by the session, then a server error for an id outside 64 bits, then 404 for a missing id, then "not authorized" for a non-owner; only the owner gets the form filled with the stored row |
| `App.Clinic.EditPatient` | app.py:119-142 | with no session, an id outside 64 bits (server error), a missing id (404), a non-owner, a number that does not convert, an upload whose sanitised name is empty so the save raises, or an age outside 64 bits, the Patient table is unchanged. Otherwise only that row changes: every field is overwritten, blank numbers become zero, and the image is replaced only when a file was sent. The id and owner are never reassigned |
| `App.Clinic.DeletePatient` | app.py:145-156 | with no session, an id outside 64 bits (server error), a missing id (404) or a non-owner, the Patient table is unchanged; the owner's delete removes exactly that row and keeps every other row |
| `Scenarios.LogoutTwice` | app.py:167-172 | logging out twice gives the same answer and state as logging out once |
| `Scenarios.RegisterThenLogin` | app.py:41-73 | after a successful registration the same email and password log in, and the session names the new doctor |
| `Scenarios.RegisterThenWrongPassword` | app.py:61-73 | with an injective derivation, after registering, a different password under the same email is refused and the session is unchanged |
| `Scenarios.DeleteTwice` | app.py:145-156 | the owner's second delete of the same id answers 404 and the row stays removed |
| `Scenarios.CreateThenList` | app.py:76-116 | a patient just created by the logged-in doctor appears on that doctor's dashboard with the fields from the form |
| `Scenarios.IntruderRefused` | app.py:119-156 | a logged-in doctor who does not own a patient is refused both edit and delete, and the Patient table is unchanged |

## Left out

- Routing, templates, flash message text and `url_for` are left out. A handler's answer is a `Response` value, and a flash is a `Flash` kind.
- SQLAlchemy persistence, sessions and commits are left out. The tables are in-memory maps. The edited row is a value that is loaded, changed field by field and written back, in place of the ORM object that is modified in place; the model does not capture object identity or aliasing.
- Id allocation is a counter per table, so ids are never reused. SQLite's rowid allocation may reuse the largest id after it is deleted; the model only relies on the new id being unused.
- The email column's unique constraint is not modelled as a store check; uniqueness is proved as an invariant of the handlers (`Clinic.Valid`). The declared foreign key on `doctor_id` is not enforced by SQLite unless foreign-key checking is switched on, and the model has no store check for it either.
- The session is trusted to name an existing doctor: it is bound only by `Login` against the same store. In the application the session is a client cookie signed with a fixed key, so a forged cookie, or one that outlives a database reset, can name a doctor who does not exist, and `patient_new` would then store a patient for that doctor. This trust is what makes `Clinic.Valid`'s clauses "every patient's owner exists" and "a bound session names an existing doctor" hold.
- The id counters are unbounded. The store's failure to allocate an id beyond the 64-bit range is not modelled.
- Werkzeug's `generate_password_hash` and `check_password_hash` are foreign library code. The key derivation is a function value fixed when the `Clinic` is built. The random salt is a parameter of `Register`. The hash-method prefix of the stored string is not modelled.
- `Passwords.CheckOnlyOwnPassword` and `Scenarios.RegisterThenWrongPassword` assume an injective key derivation. A real hash function only makes collisions improbable.
- `secure_filename`, `file.save` and `send_from_directory` are library code and file I/O, so they are left out, except that a save to an empty sanitised name raises. The uploaded image is the already sanitised file name (possibly empty), or none. Path-traversal safety of stored and served files is therefore not modelled, and neither are overwrites of files with the same name or files left behind after a delete or replacement.
- `App.Clinic.CreatePatient` and `App.Clinic.EditPatient` model only one failure of the save, the empty sanitised name. Its other failures (a name longer than the file system allows, a full disk, a permission error) are not modelled: there the model stores the row where the application answers a server error and commits nothing.
- `int()` and `float()` parsing is left out. A numeric field arrives as `Blank`, `Number(v)` or `NotANumber`. Weights are exact reals, not IEEE floats.
- The survey route has no effect on state and is left out, as are the index page, the uploads route, app configuration, `db.create_all` and `app.run`.
- Concurrent requests are left out, including races between two registrations of one email and between two uploads of one file name. Sessions of several browsers are not modelled either: the model holds one session.
- Field length limits of the columns (`String(100)` and the like) are not enforced by SQLite and are not modelled.
