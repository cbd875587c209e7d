# Siglas barbershop: the booking, lifecycle, store and form rules

A model in Dafny of the deterministic rules of the Siglas barbershop
application. The application is a Flask API that stores users, services and
appointments, plus React pages for clients, barbers and administrators. The
fetch calls, the database session and the React machinery are left out; what
remains is the logic between them:

- **Slot generator** (`Booking`, from `BookAppointment.jsx`):
  - the fixed morning, afternoon and evening table;
  - `HH:MM` to minutes and back;
  - the `for` loop that lists the start times of a segment, a `method` with a
    `while` loop proved against `SlotsFor`;
  - the booking form's reset rules;
  - the order of the submit checks and the request body.
- **Appointment lifecycle and authorisation**:
  - `Routes` (from `routes.py`): the status-update matrix, the creation checks
    for appointments, users and services, the barber listing, the appointment
    listing and the two registration endpoints;
  - `Auth` (from `auth.py`): finding the caller and the `require_roles` guard;
  - `MyAppointmentsPage` (from `MyAppointments.jsx`): the button predicates,
    which are the only place the pendiente → confirmada → completada order
    exists.
  - The writes are methods of a `Database` class. The class holds the three
    tables as maps and the next free ids.
- **Global store** (`Store`, from `store.js`): `initialStore`, whose
  `localStorage` reads are inputs, and the reducer.
- **Form validators and payload builders**:
  - `CreateUserForm` (from `AdminCreatedUser.jsx`);
  - `EditUserForm` (from `AdminEditarUsuarios.jsx`), whose payload is built by
    a method because the source adds the password to the object afterwards;
  - `SignUp` (from `Registrarse.jsx`).
  - Each early-return chain is also proved equal to the first failure of an
    ordered check list (`Checks`).
- **Dashboards** (`AdminDashboard`, `Dashboard`, `AppointmentRows`):
  - per-status counts;
  - the ten newest appointments (`Ordering`);
  - badge tables;
  - `formatDateTime`;
  - the title and administrator rules.
- **Integration**: lemmas across files. They cover what the booking and
  sign-up pages send against what the endpoints accept, the buttons against
  the server's matrix, and a booked time as the dashboards show it.

Modelling choices:

- **JSON values:** JSON and JavaScript values are one datatype `Value`.
  - Python truthiness (`PyTruthy`) and JavaScript truthiness (`JsTruthy`) are
    separate predicates. They differ on empty arrays and objects.
  - Numbers are integers.
- **Dates:** dates are integer keys.
- **Parameters standing in for external calls:** the ISO-8601 parser, the JWT
  payload decoder, `JSON.parse` and bcrypt.
  - `JSON.parse` is a partial function `string -> Option<Value>`: `None` is the
    SyntaxError it throws. `Store.JsonParser` names the three facts about it
    the model uses.
  - bcrypt's hash takes the password's text. A password that is not a string
    makes bcrypt raise a TypeError, answered 500.
- **Behaviour of the code worth knowing:**
  - The slot generator requires `duration > 0`. The code's default of 30 only
    covers a missing or falsy duration, and a negative one would make its
    loop run forever.
  - A registration with an email already in use answers 500, not 404. The
    duplicate branch calls `Usuario.serialize()` on the class, which raises
    inside the `try`.
  - `add_usuario_barber_admin` builds the user without a role, so even
    corrected it creates a "cliente".
  - A truthy password that is not a string, such as `123456` or `true`, is
    answered 500 by both user-creating endpoints. The registration's `try`
    catches the TypeError; `admin_create_user` has no `try` around its hash.

## Model

| member | source | states |
|---|---|---|
| Models.RoleOf | src/api/models.py:9-10 | a string names a role exactly when it is one of the three role names |
| Models.StatusOf | src/api/models.py:11-12 | a string names a status exactly when it is one of the four status names |
| Values.Get | src/api/routes.py:30 | `data.get(k)`: the stored value, `None` when the key is absent |
| Values.GetOr | src/api/routes.py:244 | `data.get(k, d)`: the stored value, `d` when the key is absent |
| Values.Prop | src/front/store.js:38 | reading a property throws exactly on `null`/`undefined`; on an object it gives the member |
| Values.Member | src/front/pages/MyAppointments.jsx:125 | an object's member, `undefined` when absent |
| Values.OptProp | src/front/pages/AdminDashboard.jsx:29 | `v?.k`: `undefined` on `null`/`undefined`, the member on an object |
| Values.JsOr | src/front/pages/Dashboard.jsx:181 | `a \|\| b` is `a` when `a` is truthy and `b` otherwise |
| Text.DigitValue | src/api/auth.py:19 | a digit's value is below ten |
| Text.DigitChar | src/api/auth.py:19 | the digit written for a value below ten reads back as that value |
| Text.DecimalString | src/api/routes.py:120 | `str(n)` is a non-empty run of digits without a leading zero |
| Text.NumberOf | src/api/auth.py:19 | a digit string has a value exactly when every character is a digit |
| Text.NumberOfDecimalString | src/api/routes.py:120 | reading `str(n)` back gives `n` |
| Text.NumberOfLeadingZero | src/front/pages/BookAppointment.jsx:25 | a leading zero does not change the value read |
| Text.PyStrip | src/api/auth.py:19 | the stripped text is no longer and neither starts nor ends with Python white space |
| Text.PyStripPadded | src/api/auth.py:19 | stripping white space around a text without surrounding blanks gives that text back |
| Text.GroupDigits | src/api/auth.py:19 | the digit part of a literal, underscores removed, is a non-empty digit string |
| Text.GroupDigitsOfDigits | src/api/auth.py:19 | a plain digit string is its own digit part |
| Text.GroupDigitsJoin | src/api/auth.py:19 | the digit part of `x_y` is `xy` |
| Text.ParseInt | src/api/auth.py:18-21 | `int(s)` succeeds exactly when the stripped text, after an optional sign, is digit groups; it fails on "", "+" and "-", and reads a digit string as its value |
| Text.ParseIntPadded | src/api/auth.py:18-21 | white space around a number and a leading minus are read as Python does |
| Text.ParseIntUnderscore | src/api/auth.py:18-21 | a single underscore between digits is ignored |
| Text.ParseIntRejects | src/api/auth.py:18-21 | blank text, a lone sign, and a doubled, leading or trailing underscore raise |
| Text.ParseIntDecimalString | src/api/auth.py:12-23 | `int(str(n)) == n`, so the login identity parses back to the id |
| Text.SplitOn | src/front/pages/BookAppointment.jsx:25 | `split` gives at least one part, and the whole string when the separator is absent |
| Text.SplitOnJoin | src/front/pages/BookAppointment.jsx:25 | splitting `a + sep + b` (no `sep` in `a`) gives `a` and then the parts of `b` |
| Text.TrimStartSpec | src/front/pages/AdminCreatedUser.jsx:62 | stripping leading blanks removes a run of whitespace and leaves no leading blank |
| Text.TrimEndSpec | src/front/pages/AdminCreatedUser.jsx:62 | stripping trailing blanks removes a run of whitespace and leaves no trailing blank |
| Text.TrimSpec | src/front/pages/AdminCreatedUser.jsx:62 | `trim` leaves the infix between two whitespace runs, with no blank at either end, and is empty exactly on an all-blank string |
| Text.TrimIdempotent | src/front/pages/AdminCreatedUser.jsx:93-94 | trimming twice is trimming once |
| Text.TrimDigits | src/front/pages/BookAppointment.jsx:25 | a digit string is its own trim |
| Text.Utf16Length | src/front/pages/AdminCreatedUser.jsx:62 | `length` counts UTF-16 units: between one and two per character, exactly one each iff every character is in the Basic Multilingual Plane |
| Text.Utf16LengthAppend | src/front/pages/AdminCreatedUser.jsx:62 | the length of a concatenation is the sum of the lengths |
| Text.EmojiIsTwoUnits | src/front/pages/AdminCreatedUser.jsx:62 | one emoji is one character but two units long |
| Text.JsString | src/front/pages/BookAppointment.jsx:38 | `String(v)` is the text of a string and the decimal writing of a natural number |
| Text.SignedValue | src/front/pages/BookAppointment.jsx:151 | a decimal literal of `Number` is an optional sign and at least one ASCII digit, and nothing else is one |
| Text.StringToNumber | src/front/pages/BookAppointment.jsx:25 | `Number(s)` on a digit string is its value |
| Text.StringToNumberTrims | src/front/pages/BookAppointment.jsx:151 | `Number(s)` trims ECMAScript white space, reads blank text as 0, is a number exactly for a signed digit run, and applies the sign |
| Text.StringToNumberPadded | src/front/pages/BookAppointment.jsx:151 | `Number(" -42\n") == -42` |
| Text.StringToNumberPlus | src/front/pages/BookAppointment.jsx:151 | `Number("+7") == 7` |
| Text.StringToNumberUnderscore | src/front/pages/BookAppointment.jsx:151 | `Number("1_0")` is NaN |
| Text.StringToNumberControl | src/front/pages/BookAppointment.jsx:151 | `Number("\u001C7")` is NaN, since U+001C is not ECMAScript white space |
| Text.ParseIntReadsWhatNumberRejects | src/api/routes.py:285 | Python's `int` reads "1_0" as 10 and "\u001C7" as 7, so the two number readers differ |
| Text.JsNumber | src/front/pages/BookAppointment.jsx:150-151 | `Number(v)` keeps numbers, reads strings as above, and is NaN on `undefined` and objects |
| Text.IndexOf | src/front/pages/AdminDashboard.jsx:297 | the first position of a character, or the length when it is absent |
| Text.ReplaceFirst | src/front/pages/AdminDashboard.jsx:297 | `replace("T", " ")` changes only the first occurrence and keeps the length |
| Ordering.Insert | src/front/pages/AdminDashboard.jsx:117-118 | inserting into a date-descending list keeps it sorted and adds exactly one element |
| Ordering.SortDesc | src/front/pages/AdminDashboard.jsx:117-118 | the sort by `b - a` is a permutation, newest first |
| Ordering.Take | src/front/pages/AdminDashboard.jsx:119 | `slice(0, n)` is the prefix of length `min(n, \|s\|)` |
| Ordering.Newest | src/front/pages/AdminDashboard.jsx:116-120 | copy, sort, cut: at most `n` entries, newest first, drawn from the input, none left out newer than one kept |
| Ordering.NewestSplit | src/front/pages/AdminDashboard.jsx:119 | a prefix of a sorted list holds its newest elements |
| Auth.GetCurrentUser | src/api/auth.py:14-23 | no user for a missing, empty or non-integer identity; otherwise exactly the user stored under that id |
| Auth.CurrentUserOfLoginIdentity | src/api/auth.py:12-23 | the identity login puts in the token (`str(user_id)`) finds that user |
| Auth.RequireRoles | src/api/auth.py:39-49 | 401 without a user, 403 listing the allowed roles for another role, and otherwise the wrapped function on the same arguments, and only then |
| Routes.ValidateRequired | src/api/routes.py:28-31 | exactly the required fields that are absent or falsy, in the given order; empty iff all are present and truthy |
| Routes.PyInt | src/api/routes.py:285 | `int(v)` keeps an integer and raises on `None`, lists and dicts; a string is read by `int(s)` |
| Routes.PyIntOfPaddedText | src/api/routes.py:285 | an id sent as text with surrounding white space reads as that id |
| Routes.Lookup | src/api/routes.py:339 | `db.session.get` finds a row exactly when its id is stored |
| Routes.RequestedStatus | src/api/routes.py:344-347 | a body asks for a status exactly when `status` is one of the four names |
| Routes.DecideStatusUpdate | src/api/routes.py:334-364 | 401, then 404 for a missing appointment, then 400 for an unknown status, before any role check; success exactly under the role and ownership matrix, otherwise 403 |
| Routes.AdminMaySetAnyStatus | src/api/routes.py:349-350 | an admin may set any of the four statuses on any appointment, whatever its current status |
| Routes.ClientMayOnlyCancelOwn | src/api/routes.py:354-358 | a client succeeds only on their own appointment and only with "cancelada" |
| Routes.WithStatus | src/api/routes.py:362 | the write changes that appointment's status and no other row or field |
| Routes.DecideCreateAppointment | src/api/routes.py:269-308 | 401, then 403 for a non-client, 400 for a missing id or date; a new row is the caller's, with the barber's and service's ids and the parsed date, pending |
| Routes.CreateAppointmentOutcomes | src/api/routes.py:284-308 | for a complete client request: 500 when an id is not an integer, 400 for a non-barber, an unknown service or a bad date, in that order, and a new appointment when all pass |
| Routes.ListBarbers | src/api/routes.py:261-264 | exactly the stored users whose role is barbero or admin |
| Routes.ListedBarbersAreBookable | src/api/routes.py:262-287 | the listed barbers are exactly those the appointment check accepts |
| Routes.MinOf | src/api/routes.py:320-321 | the least id of a non-empty set |
| Routes.IdsAscending | src/api/routes.py:320-321 | a table's ids, each once, in ascending order |
| Routes.Rows | src/api/routes.py:320-321 | every stored row and nothing else, each row once when rows record their own ids |
| Routes.RowsOnce | src/api/routes.py:320-321 | rows read along strictly ascending ids occur once each |
| Routes.OnceEach | src/api/routes.py:320-321 | a sequence without repeats holds each element once |
| Routes.RowsOfIds | src/api/routes.py:320-321 | rows read along all the ids are exactly the stored rows |
| Routes.Matching | src/api/routes.py:320-324 | the filter keeps exactly the rows listed for the user, each as often as it occurs |
| Routes.Listed | src/api/routes.py:319-324 | a client's own bookings, or a barber's or admin's assigned ones, date descending, each stored row once |
| Routes.MyAppointments | src/api/routes.py:314-328 | 401 without a caller, 400 for any other role, else 200 with exactly the matching rows, each once, newest first |
| Routes.Database.ListsEachRowOnce | src/api/routes.py:319-324 | in a valid database each matching stored appointment is listed exactly once |
| Routes.DecideAdminCreateUser | src/api/routes.py:370-425 | 400 for missing name/email/password before the role check, 400 for an unknown role, 409 iff the email is taken, 500 for a password that is not a string, else (and always then) an active user with the requested role, defaulting to "cliente", and the hashed password text |
| Routes.DecideCreateService | src/api/routes.py:241-256 | 400 unless a name and a non-None price are given; created exactly when `int` reads the duration, which defaults to 30, and the stored duration is that number |
| Routes.CreateServiceReadsDurationText | src/api/routes.py:244-252 | a duration sent as padded digit text is stored as its number |
| Routes.CreateServiceSpacedDuration | src/api/routes.py:244-252 | `"duration_minutes": " 45"` stores 45 |
| Routes.CleanData | src/api/routes.py:170-171 | the required fields the body has, with their values |
| Routes.DecideRegister | src/api/routes.py:163-192 | 400 for no data, 400 listing the missing fields, 500 for a taken email, a password that is not a string or an unknown field, else a new client with the hashed password text |
| Routes.RegisterComplete | src/api/routes.py:176-192 | a complete body with a fresh email creates the user built from the cleaned fields when the password is a string, and is answered 500 when it is not |
| Routes.BarberAdminNeverCreates | src/api/routes.py:200-201 | with the list as written, the barber/admin registration never succeeds |
| Routes.IntendedBarberAdminCreates | src/api/routes.py:200-222 | with the two fields separated, a complete body with a fresh email and a string password is created, keeping specialties, photo URL and bio; another password is answered 500 |
| Routes.Database.constructor | src/api/models.py:28-32 | the tables start empty |
| Routes.Database.UpdateAppointmentStatus | src/api/routes.py:332-364 | the reply is the decision on the stored caller and appointment; on success only that appointment's status changes |
| Routes.Database.CreateAppointment | src/api/routes.py:267-308 | the reply is the decision; on success exactly one new row under a fresh id, nothing else changes |
| Routes.Database.AdminCreateUser | src/api/routes.py:367-434 | the admin guard, then the decision; on success exactly one new user under a fresh id |
| Routes.Database.CreateService | src/api/routes.py:238-256 | the admin guard, then the decision; on success exactly one new service under a fresh id |
| Routes.Database.Register | src/api/routes.py:161-227 | the registration decision; on success exactly one new user under a fresh id |
| Booking.Pad2Digits | src/front/pages/BookAppointment.jsx:23 | `pad2` of a number below 100 is two digits reading back as the number |
| Booking.Numbers | src/front/pages/BookAppointment.jsx:25 | `map(Number)` reads each part |
| Booking.Pad2Value | src/front/pages/BookAppointment.jsx:23 | `pad2` of a number below 100 has no colon and reads back as the number |
| Booking.HHMMChars | src/front/pages/BookAppointment.jsx:28 | `toHHMM` writes the two padded fields around a colon |
| Booking.TimeText | src/front/pages/BookAppointment.jsx:28 | `toHHMM(h*60+m)` is the padded hour, a colon and the padded minute |
| Booking.SplitHHMM | src/front/pages/BookAppointment.jsx:25-28 | a written time splits at its colon into the two padded fields |
| Booking.ToMinutesToHHMM | src/front/pages/BookAppointment.jsx:24-28 | `toMinutes(toHHMM(m)) == m`, for every time of day and beyond |
| Booking.HHMMFields | src/front/pages/BookAppointment.jsx:28 | for a time of day, five characters: a two-digit hour below 24, a colon, a two-digit minute below 60 |
| Booking.SegmentOf | src/front/pages/BookAppointment.jsx:31-35 | a segment exists exactly for morning, afternoon and evening |
| Booking.SegmentBounds | src/front/pages/BookAppointment.jsx:31-35 | each segment starts before it ends |
| Booking.SegmentTimes | src/front/pages/BookAppointment.jsx:53-54 | `toMinutes` of the table's times are the bounds 540-720, 780-1020, 1020-1200 |
| Booking.SegmentText | src/front/pages/BookAppointment.jsx:31-35 | the table's times are `toHHMM` of the bounds |
| Booking.MorningText | src/front/pages/BookAppointment.jsx:32 | the morning's bounds written are 09:00 and 12:00 |
| Booking.AfternoonText | src/front/pages/BookAppointment.jsx:33 | the afternoon's bounds written are 13:00 and 17:00 |
| Booking.EveningText | src/front/pages/BookAppointment.jsx:34 | the evening's bounds written are 17:00 and 20:00 |
| Booking.Written | src/front/pages/BookAppointment.jsx:58 | each start written with `toHHMM`, position by position |
| Booking.StartsLength | src/front/pages/BookAppointment.jsx:57 | the loop makes `(end - start) div duration` steps |
| Booking.StartsIndex | src/front/pages/BookAppointment.jsx:57 | the i-th start is `start + i*duration`, and it fits before `end` |
| Booking.StartsMaximal | src/front/pages/BookAppointment.jsx:57 | one more step would end after `end` |
| Booking.Slots | src/front/pages/BookAppointment.jsx:48-61 | the memo gives the segment's slot list, and none for an empty or unknown segment |
| Booking.SlotsBetween | src/front/pages/BookAppointment.jsx:56-59 | the loop's output is the written start times from `start` while `t + duration <= end` |
| Booking.SlotsForSpec | src/front/pages/BookAppointment.jsx:49-59 | no slots for an unknown segment; otherwise `(end-start) div duration` slots, the i-th at `start + i*duration`, each inside the segment, and the list maximal |
| Booking.AfternoonHours | src/front/pages/BookAppointment.jsx:28 | the afternoon's hours written are 13:00 to 16:00 |
| Booking.AfternoonHourly | src/front/pages/BookAppointment.jsx:57-59 | a 60-minute service gets 13:00, 14:00, 15:00, 16:00 in the afternoon |
| Booking.MorningLongServices | src/front/pages/BookAppointment.jsx:57-59 | a 180-minute service gets [09:00] in the morning, one of 181 minutes nothing |
| Booking.SelectedService | src/front/pages/BookAppointment.jsx:37-39 | the listed service at the first index whose id as text is the form's; none when no id matches |
| Booking.DurationOf | src/front/pages/BookAppointment.jsx:41 | the service's `duration_minutes` when present and truthy, else 30 |
| Booking.IsoString | src/front/pages/BookAppointment.jsx:43-46 | "" unless date and time are set, else `date + "T" + time + ":00"` |
| Booking.ListedSlots | src/front/pages/BookAppointment.jsx:48-61 | the page lists the slots of the form's segment for the selected duration |
| Booking.Step | src/front/pages/BookAppointment.jsx:122-129 | selecting a barber clears segment and time; service, date and segment clear only time; a slot click sets the time; nothing else changes |
| Booking.RunKeepsTimeListed | src/front/pages/BookAppointment.jsx:240-327 | along any sequence of events the chosen time stays empty or one of the listed slots |
| Booking.ReachableTimeIsListed | src/front/pages/BookAppointment.jsx:11-17 | from the initial form every reachable time is empty or listed |
| Booking.JsonNumber | src/front/pages/BookAppointment.jsx:150-151 | `Number(..)` in the JSON body is a number or `null` |
| Booking.Submit | src/front/pages/BookAppointment.jsx:131-153 | barber, service, date, segment, time checked in that order with the first missing one's message; the request has exactly the numeric ids and the date-time |
| Checks.FirstFailureSpec | src/front/pages/AdminCreatedUser.jsx:61-73 | an early-return chain gives nothing iff every check passes, else the first failing check's message |
| Checks.FirstFailureCons | src/front/pages/AdminCreatedUser.jsx:62 | a passing first check defers to the rest, a failing one answers |
| Checks.FirstFailureAt | src/front/pages/AdminCreatedUser.jsx:61-73 | when all checks before `i` pass and check `i` fails, its message is returned |
| CreateUserForm.Validate | src/front/pages/AdminCreatedUser.jsx:61-74 | null iff name, email, password length, confirmation and (for a barber) specialties all pass, lengths in UTF-16 units |
| CreateUserForm.CreateChecks | src/front/pages/AdminCreatedUser.jsx:61-71 | the five checks, in order |
| CreateUserForm.ValidateIsFirstFailure | src/front/pages/AdminCreatedUser.jsx:61-73 | `validate` returns the first failing check's message |
| CreateUserForm.SpecialtiesRequiredIffBarber | src/front/pages/AdminCreatedUser.jsx:68-71 | specialties are demanded iff role is barbero or the checkbox shows them |
| CreateUserForm.ChangeRole | src/front/pages/AdminCreatedUser.jsx:47-59 | only the role changes; switching to cliente hides specialties |
| CreateUserForm.RoleRoundTripKeepsSpecialties | src/front/pages/AdminCreatedUser.jsx:55-58 | to cliente and back keeps the specialties value |
| CreateUserForm.BlankToNullSpec | src/front/pages/AdminCreatedUser.jsx:100-104 | a blank field is sent as null, any other trimmed and non-empty |
| CreateUserForm.CreatePayload | src/front/pages/AdminCreatedUser.jsx:89-108 | trimmed name and email; phone, address, photo and bio each trimmed or null when blank; role barbero iff willBeBarber else cliente, never admin; specialties null unless a barber; the password as typed |
| CreateUserForm.ValidatedPayload | src/front/pages/AdminCreatedUser.jsx:76-108 | an accepted form sends the trimmed typed name (two units or more) and email, the confirmed password, a barber's specialties, and each optional field null or trimmed |
| CreateUserForm.EmojiNamePasses | src/front/pages/AdminCreatedUser.jsx:62 | a one-emoji name is two units long and passes the name check |
| EditUserForm.Validate | src/front/pages/AdminEditarUsuarios.jsx:61-77 | as on the create page (lengths in UTF-16 units), but the password is checked only when typed |
| EditUserForm.EditChecks | src/front/pages/AdminEditarUsuarios.jsx:61-75 | the five checks, in order |
| EditUserForm.ValidateIsFirstFailure | src/front/pages/AdminEditarUsuarios.jsx:61-77 | `validate` returns the first failing check's message |
| EditUserForm.EmptyPasswordSkipsPasswordChecks | src/front/pages/AdminEditarUsuarios.jsx:66-70 | an empty password never fails a password check, whatever the confirmation |
| EditUserForm.UndefinedSpecialtiesIsEmpty | src/front/pages/AdminEditarUsuarios.jsx:72-75 | an undefined specialties counts as "" |
| EditUserForm.ChangeRole | src/front/pages/AdminEditarUsuarios.jsx:49-59 | only the role changes; switching to cliente hides specialties |
| EditUserForm.ChangeRoleKeepsSpecialties | src/front/pages/AdminEditarUsuarios.jsx:49-59 | switching role keeps the specialties value |
| EditUserForm.TextOr | src/front/pages/AdminEditarUsuarios.jsx:95 | `v \|\| d` on a text field |
| EditUserForm.Load | src/front/pages/AdminEditarUsuarios.jsx:92-111 | the user id is kept; missing name, email, phone, address, photo, bio and specialties become "", role defaults to cliente, `is_admin` coerced, passwords cleared, specialties shown iff barbero, optional section iff photo or bio |
| EditUserForm.LoadForgetsPreviousForm | src/front/pages/AdminEditarUsuarios.jsx:92-107 | the loaded form does not depend on what was there before |
| EditUserForm.LoadedPasswordIsOptional | src/front/pages/AdminEditarUsuarios.jsx:104-105 | right after loading no password check fails |
| EditUserForm.BasePayload | src/front/pages/AdminEditarUsuarios.jsx:129-139 | trimmed fields, the role as it stands, no password key |
| EditUserForm.BuildPayload | src/front/pages/AdminEditarUsuarios.jsx:127-142 | throws on undefined specialties; a password key iff one was typed, with that value |
| EditUserForm.BlankFieldsSentEmpty | src/front/pages/AdminEditarUsuarios.jsx:134-137 | blank optional fields become "" rather than null |
| EditUserForm.LoadedPageHasPayload | src/front/pages/AdminEditarUsuarios.jsx:92-142 | a loaded page always yields a payload without a password and with the stored role |
| SignUp.Validate | src/front/components/Registrarse.jsx:36-51 | accepted iff the four field checks, the password length and the confirmation pass (lengths in UTF-16 units); a field failure gives the single field message |
| SignUp.ValidateIsFirstFailure | src/front/components/Registrarse.jsx:36-51 | the three guards report the first failure |
| SignUp.PasswordChecksComeLater | src/front/components/Registrarse.jsx:45-51 | the length message only after the field checks pass, the mismatch message last |
| SignUp.RequestBody | src/front/components/Registrarse.jsx:59-65 | name, email, phone and address trimmed, the password as typed |
| SignUp.AcceptedBody | src/front/components/Registrarse.jsx:59-65 | an accepted form sends the trims of the typed fields, of the required lengths, and the untrimmed password |
| Store.FieldsDetermineStore | src/front/store.js:1-16 | two stores with the same fields are equal |
| Store.ScalarParserIsJsonParser | src/front/store.js:6-7 | the facts assumed of `JSON.parse` can be met together |
| Store.StoredJson | src/front/store.js:6-7 | `JSON.parse(item \|\| "null")`: null when nothing is stored, and a throw exactly when a stored text does not parse |
| Store.InitialStore | src/front/store.js:1-16 | throws exactly when the stored user or role does not parse; otherwise token "" when none is stored, user and role parsed, empty lists, loading false, error and message null |
| Store.RoleItemAsWritten | src/front/components/Login.jsx:67 | `setItem("role", role)` stores the bare role name, and "null" for no role |
| Store.BareRoleBreaksInitialStore | src/front/components/Login.jsx:67 | after a login stores a role name, `initialStore()` throws |
| Store.RoleItemIntended | src/front/components/Login.jsx:67 | `JSON.stringify(role)` stores the role name in quotes, and "null" for no role |
| Store.QuotedRoleRestores | src/front/store.js:7 | a role stored as JSON is read back by `initialStore()` |
| Store.RoleNamesArePlain | src/api/models.py:9-10 | the three role names need no escaping in JSON |
| Store.WithField | src/front/store.js:25-59 | `{...store, f: v}` sets `f` and nothing else |
| Store.Reduce | src/front/store.js:18-67 | the reducer throws exactly on set_user without a payload |
| Store.UnknownActionIsIdentity | src/front/store.js:64-65 | an unknown action type leaves the store unchanged |
| Store.NoActionIsIdentity | src/front/store.js:18 | the default empty action leaves the store unchanged |
| Store.SetterOverwritesOneField | src/front/store.js:25-59 | each setter overwrites exactly its one field with the payload |
| Store.ClearErrorOnlyClearsError | src/front/store.js:31-32 | clear_error sets error to null and nothing else |
| Store.ClearErrorIgnoresPayload | src/front/store.js:31-32 | clear_error does not read its payload |
| Store.LogoutResets | src/front/store.js:40-50 | logout resets token, user, lists, loading and error, and keeps role, message and backend URL |
| Store.LogoutIdempotent | src/front/store.js:40-50 | logging out twice is logging out once |
| Store.SetUserStoresIdAndRole | src/front/store.js:37-38 | set_user stores `payload.user_id` as user and `payload.role` as role, nothing else |
| Store.SetUserIgnoresOtherFields | src/front/store.js:37-38 | payloads agreeing on user_id and role give the same store (is_admin is dropped) |
| AppointmentRows.WithStatus | src/front/pages/AdminDashboard.jsx:109 | the filter keeps exactly the rows with that status |
| AppointmentRows.WithStatusMultiplicity | src/front/pages/AdminDashboard.jsx:109 | each row with the status is kept as often as it occurs, any other row never |
| AppointmentRows.WithStatusCons | src/front/pages/AdminDashboard.jsx:109 | the first row is kept iff it has the status, then the rest is filtered |
| AppointmentRows.WithStatusAppend | src/front/pages/AdminDashboard.jsx:109 | filtering distributes over concatenation |
| AppointmentRows.CountStatus | src/front/pages/AdminDashboard.jsx:109-112 | the count is at most the number of rows, zero iff no row has the status, all iff every row has it |
| AppointmentRows.CountAll | src/front/pages/AdminDashboard.jsx:109-112 | every row is counted iff every row has the status |
| AppointmentRows.CountStatusAppend | src/front/pages/AdminDashboard.jsx:109-112 | counts add over concatenation, a single row counts one iff it has the status, so the count is fixed on every list |
| AppointmentRows.FourCountsBounded | src/front/pages/AdminDashboard.jsx:107-114 | the four status counts sum to at most the total |
| AppointmentRows.TwoCountsBounded | src/front/pages/Dashboard.jsx:120-128 | two distinct status counts sum to at most the total |
| AppointmentRows.StatusBadge | src/front/pages/AdminDashboard.jsx:284-293 | warning, primary, success and danger for pendiente, confirmada, completada and cancelada; text-bg-secondary exactly for any other value |
| AppointmentRows.StatusBadgeDistinct | src/front/pages/AdminDashboard.jsx:285-290 | the four statuses get four different classes |
| AppointmentRows.DateTimeTextSpec | src/front/pages/AdminDashboard.jsx:297 | the first "T" replaced by a space, then at most 16 characters kept |
| AppointmentRows.DateTimeTextOfIso | src/front/pages/AdminDashboard.jsx:297 | an ISO date-time shows as "date time" |
| MyAppointmentsPage.BadgeClass | src/front/pages/MyAppointments.jsx:25-31 | success, warning, secondary and dark for confirmada, pendiente, cancelada and completada; text-bg-light exactly for any other value |
| MyAppointmentsPage.BadgeClassDistinct | src/front/pages/MyAppointments.jsx:26-29 | the four statuses get four different classes |
| MyAppointmentsPage.ButtonsFollowLifecycle | src/front/pages/MyAppointments.jsx:125-145 | on a free row: pendiente → confirmada, confirmada → completada, anything but cancelada/completada → cancelada; nothing on a busy row |
| MyAppointmentsPage.FinishedOffersNothing | src/front/pages/MyAppointments.jsx:125-145 | a cancelled or completed appointment offers no button |
| MyAppointmentsPage.ConfirmAndCompleteExclusive | src/front/pages/MyAppointments.jsx:137-145 | Confirm and Complete are never both enabled |
| MyAppointmentsPage.UpdateStatusRun | src/front/pages/MyAppointments.jsx:33-57 | busy with the id from the second state on, null at the end, with the outcome's message |
| MyAppointmentsPage.BusyRowIsLocked | src/front/pages/MyAppointments.jsx:35-55 | while the request runs the row offers nothing; afterwards it is free |
| AdminDashboard.Claims | src/front/pages/AdminDashboard.jsx:28 | no claims without a token |
| AdminDashboard.DashboardRole | src/front/pages/AdminDashboard.jsx:29 | with a truthy `claims.sub`, a truthy `claims.role` or else `store.role`; without one, `store.role` |
| AdminDashboard.IsAdminFromClaimsOrRole | src/front/pages/AdminDashboard.jsx:30 | administrator iff `claims.is_admin` or role admin; `store.is_admin` never decides |
| AdminDashboard.WithoutClaimsStoreRoleDecides | src/front/pages/AdminDashboard.jsx:28-30 | without a token, administrator iff the store's role is admin |
| AdminDashboard.Redirect | src/front/pages/AdminDashboard.jsx:43-52 | to login without a token, to the dashboard for others, staying iff token and administrator |
| AdminDashboard.LoggedOutGoesToLogin | src/front/pages/AdminDashboard.jsx:44-46 | after logout the page goes to login |
| AdminDashboard.ComputeStats | src/front/pages/AdminDashboard.jsx:107-114 | total is the number of rows, each status count the number of rows with exactly that status; their sum is at most the total |
| AdminDashboard.LastAppointments | src/front/pages/AdminDashboard.jsx:116-120 | at most ten, newest first, drawn from the list, none left out newer than one kept |
| AdminDashboard.FormatDateTime | src/front/pages/AdminDashboard.jsx:295-298 | "-" for a falsy value, else the date-time text of `String(dt)` |
| Dashboard.DashboardToken | src/front/pages/Dashboard.jsx:9 | the store's token when truthy, else the stored item as a string, or null when nothing is stored |
| Dashboard.DashboardRole | src/front/pages/Dashboard.jsx:10 | the store's role when truthy, else the parsed stored role; a throw exactly when the store's role is falsy and the stored text does not parse |
| Dashboard.StoredRoleOnReload | src/front/pages/Dashboard.jsx:10 | without a role in the store, the bare role name the login stored throws, and the JSON-quoted one is read back |
| Dashboard.TitleByRole | src/front/pages/Dashboard.jsx:89-93 | admin and barbero get their titles, anything else "Dashboard Cliente" |
| Dashboard.StatCards | src/front/pages/Dashboard.jsx:120-128 | total is the number of rows, pending and confirmed the numbers of rows with exactly those statuses, together at most the total |
| Dashboard.CancelEnabledWhen | src/front/pages/Dashboard.jsx:196 | Cancel is enabled iff not loading and the status is neither cancelada nor completada |
| Dashboard.Counterpart | src/front/pages/Dashboard.jsx:180-182 | the name column is never empty |
| Dashboard.CounterpartReadsOneSide | src/front/pages/Dashboard.jsx:180-182 | a barber sees only client fields, anyone else only barber fields |
| Dashboard.CounterpartFallbacks | src/front/pages/Dashboard.jsx:181-182 | in the client and the barber column alike the nested name wins, then the flat one, then "-" |
| Dashboard.FormatDateTime | src/front/pages/Dashboard.jsx:286-289 | "-" for a falsy value, the date-time text of a string, a throw on any other value |
| Integration.BookingCreatesAppointment | src/api/routes.py:274-304 | a booking the page sends, for a barber and service that exist, creates exactly that pending appointment of the caller |
| Integration.BookingPresenceCheck | src/api/routes.py:282 | the page never sends an empty date-time; only an id read as 0 or NaN fails the presence check |
| Integration.BookedDateTimeShown | src/front/pages/AdminDashboard.jsx:295-298 | a booked slot shows on both dashboards as the chosen date and time |
| Integration.FormatDateTimeVersions | src/front/pages/Dashboard.jsx:286-289 | the two `formatDateTime` agree except on a truthy non-string, where only the plain one throws |
| Integration.SignUpJson | src/front/components/Registrarse.jsx:59-65 | the body has exactly the five keys |
| Integration.AcceptedSignUpRegisters | src/api/routes.py:161-187 | an accepted sign-up has every required field and, with a fresh email, registers a client with the hashed password |
| Integration.StatusRow | src/api/models.py:134-143 | a serialised appointment carries its status name |
| Integration.OfferedGrantedToOwnBarber | src/api/routes.py:351-353 | every change the buttons offer is granted to the appointment's barber |
| Integration.ServerCancelsWhatPageLocks | src/api/routes.py:354-358 | the server lets a client cancel a completed appointment that the page locks |
| Integration.ClientButtonsAgainstServer | src/api/routes.py:357-358 | of the buttons a client sees enabled, only Cancel is accepted |
| Integration.LogoutLeadsToLogin | src/front/store.js:40-50 | after logout the role stays but the administrator page sends to login |

## Left out

- Fetch calls, `res.json()`, navigation, alert timers and React hooks are not modelled: they are I/O and UI plumbing. `updateStatus` is modelled by the sequence of states it writes.
- The database session, queries and ORM relationships are replaced by maps from ids to records; commit failures (the 500 after a failed commit) are not modelled.
- bcrypt, JWT creation and verification, the JWT payload decoder, `JSON.parse` and `localStorage` are parameters or inputs: they are foreign calls.
- Store.JsonParser: only three facts about `JSON.parse` are assumed (bare words are rejected, `"null"` is null, a plain quoted string is that string); the rest of JSON's grammar is left to the parameter.
- Routes.DecideAdminCreateUser: bcrypt's TypeError on a password that is not a string is modelled; any other failure of the hash is not, since the hash is a parameter.
- ISO date parsing and `new Date` are a parameter `parseDate`; dates are integer keys, and `toLocale*` display is not modelled.
- Prices and floating point are not modelled: numbers are integers, and `toFixed`/`isNaN` are left out.
- The `add_user`, `login`, `/users`, `/usuarios`, `seed-admin`, `/me` and `admin_list_users` endpoints are outside the modelled core.
- The create-user page posts to `/api/usuario`, and the edit page reads `/api/usuario/<id>` and writes `/api/admin/usuario/<id>`; no such routes exist in `routes.py`, so only the client side of those requests is modelled.
- The plain dashboard's Cancel button calls `/appointments/<id>/cancel`, which does not exist; only the button's enable rule is modelled, and its always-disabled barber buttons are not.
- The second `set_hello` case of the reducer is unreachable and is not modelled separately.
- AppointmentRows.StatusBadge: a status that names a property of `Object.prototype` (such as "constructor") reads an inherited value from the table; the model treats every non-status value as missing.
- Booking.Slots: requires `duration > 0`; the page's loop does not terminate for a negative duration, and NaN lists nothing, so `ListedSlots` lists nothing there too.
- Ordering.SortDesc: states a permutation sorted newest first, not the stability of the JavaScript sort on equal dates.
- Booking.DurationOf: a non-numeric duration is NaN (`None`); the model does not follow NaN arithmetic further.
- Routes.MyAppointments: the order among appointments with the same date is not stated, as SQL leaves it open.
- Dashboard.Counterpart: states only that the text is truthy and the fallback order, not how the name is rendered.
- Text.ParseInt: reads ASCII digits only; Python's `int` also accepts the decimal digits of other scripts (such as "٥"), which the model rejects.
- Text.StringToNumber: reads decimal integers only; the hexadecimal, binary and octal forms ("0x10"), exponents ("1e2"), fractions ("1.5") and "Infinity", which JavaScript's `Number` reads, are NaN here. The page passes `Number` only ids written from integers and its fixed `HH:MM` constants.
- AppointmentRows.DateTimeText: `slice(0, 16)` counts UTF-16 code units, while the model keeps 16 characters; the two agree on the API's ASCII date-times.
- Routes.PyInt: a JSON number with a fraction (`int(5.7) == 5`) cannot occur, since numbers are integers; strings are read as in `Text.ParseInt`.
- A JSON body that is not an object (a list, say) makes `data.get` raise, answered 500; the model's request bodies are always maps, so this reply is not modelled.
- Routes.Listed: each stored row is stated to appear once for tables whose rows record their own ids, which is what `Database.Valid` keeps (`Routes.Database.ListsEachRowOnce`); for an arbitrary map only membership and order are stated.

## Findings

| source | as written | input that shows it | evidently intended | confidence | as-written member | corrected member |
|---|---|---|---|---|---|---|
| src/api/routes.py:200-201 | the adjacent literals `"specialties" "photo_url"` join into one required field `"specialtiesphoto_url"` | any body for `POST /usuario/barber/admin`, e.g. one with every field including `specialties` and `photo_url`: it is answered 400 listing `specialtiesphoto_url`, and a body that does send that key makes `Usuario(**clean_data)` raise, answered 500 | two required fields `specialties` and `photo_url`, so a complete body creates the barber | not executed | Routes.BarberAdminNeverCreates | Routes.IntendedBarberAdminCreates |
| src/front/components/Login.jsx:67 | the role is stored with `localStorage.setItem("role", role)`, the bare name, which `JSON.parse` at src/front/store.js:7 and src/front/pages/Dashboard.jsx:10 cannot read | a login as "cliente" followed by a page reload: `initialStore()` throws a SyntaxError on the stored text `cliente` | store `JSON.stringify(role)`, so that the parse restores the role | not executed | Store.BareRoleBreaksInitialStore | Store.QuotedRoleRestores |
