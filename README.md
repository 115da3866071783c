# Clinic appointment booking: a Dafny model

This project models the booking pipeline of a small clinic web application and proves properties of the model. The pipeline has four parts.

- **The booking server.**
  - `validateAppointmentPayload` collects every violated rule of a request body and never stops at the first one.
  - `isFutureOrToday` compares dates by calendar day, ignoring the time of day.
  - `GET /doctors` filters the directory by treated disease, ignoring case.
  - `POST`, `PUT`, `DELETE` and `GET /appointments` answer 201, 200, 400 or 404 over a store of records keyed by id. The store is the class `Server.AppointmentStore`.
- **The booking form.**
  - A fallback directory and a fallback disease list.
  - The disease drop-down: a sorted union of every doctor's diseases, without repeats.
  - The doctor matcher. When nothing matches, the form shows the whole directory.
  - Field validation.
  - Submission. The record is appended to the browser's local cache, or kept there with a temporary id when the server cannot be used. The form is the class `Form.BookingForm`. The cache is the class `Records.Cache`, which the form and the page share.
- **The appointments page.**
  - Loads the list from the server, or falls back to the cache.
  - Writes its list back to the cache on every change.
  - Appends records.
  - Counts the total and the upcoming appointments.
  - The page is the class `Page.AppointmentPage`.
- **The chart.** It counts the appointments per disease and lays the counts out as aligned label and value arrays.

Conventions:
- Instants are integer milliseconds on the local clock. A calendar day is `t / 86400000`.
- The current time (`new Date()`, `Date.now()`) is always a parameter: `now` or `clock`.
- The remote calls appear only as their outcome: `Form.DoctorsReply`, `Form.Outcome` and `Page.LoadReply`.
- The validation messages are the exact strings of the code. They are also named constants, for example `Form.NameRequired`.

Three behaviours of the code worth knowing:
- The page's "upcoming" count compares the appointment's instant with the current instant, not with midnight.
- The form checks the name without trimming it. The server trims it (see `Form.BlankNameRefusedByServer`).
- `GET /doctors` builds a regular expression from the query text without escaping it. The model uses case-insensitive equality.

## Model

| member | source | states |
|---|---|---|
| Dates.StartOfDay | server.js:76-78 | `setHours(0, 0, 0, 0)` gives the midnight starting the instant's day: a multiple of a day, not after the instant, less than a day before it |
| Server.IsFutureOrToday | server.js:73-80 | false for an unparseable date; otherwise true exactly when the date's calendar day is today or later |
| Server.ValidateAppointmentPayload | server.js:82-99 | the loop and the three checks return the message of every violated rule, in rule order (`PayloadErrors`) |
| Server.PayloadAcceptedIff | server.js:82-99 | no error exactly when the six required fields are present and not blank after trimming, the age is a number in [0, 120], the date is today or later, and the gender is Male, Female or Other |
| Server.MissingFieldsExact | server.js:84-89 | a "k is required" error is reported exactly for the blank fields among the required keys |
| Server.ErrorOrderFixed | server.js:84-96 | the errors come in the fixed order name, age, gender, disease, doctor, appointmentDate, age range, past date, gender value, each at most once |
| Server.BlankGenderReportedTwice | server.js:85-96 | every rule is checked: a missing or blank gender is reported both as required and as invalid |
| Server.AgeErrorIff | server.js:91-92 | the age error is reported exactly when `Number(age)` is NaN or outside [0, 120] |
| Server.PastDayRejected | server.js:94 | a date on an earlier calendar day is rejected, whatever the other fields hold |
| Server.DoctorsQuery | server.js:104-110 | without a (non-empty) `disease` the whole directory is returned; with one, exactly the doctors with a disease equal to it up to case, in directory order, as many as there are such doctors |
| Server.AppointmentStore.Post | server.js:119-134 | a body with errors gives 400 with the messages joined by ", " and leaves the store as it was; a valid body is stored under a fresh id and returned with 201 |
| Server.AppointmentStore.List | server.js:136-144 | 200 with every stored record exactly once, in ascending order of appointment date |
| Server.CollectValues | server.js:138 | `find()` returns every stored record exactly once |
| Server.AppointmentStore.Put | server.js:146-161 | validation first (400, store unchanged); then 404 "Appointment not found" for an unknown id, store unchanged; else that record alone is updated and returned |
| Server.UpdatedIsCreated | server.js:151-155 | PUT stores what POST of the same body would store under the record's id (server.js:124-128); only notes absent from the body keep the old notes, and `null` notes clear them |
| Server.MissingDateReportedTwice | server.js:86-94 | when the date is absent or blank, so that `new Date` gives an Invalid Date, it is reported both as required and as in the past |
| Server.BlankIffTrimmedEmpty | server.js:86 | a field counts as missing exactly when it is `undefined`, `null`, or a text that trims to "" |
| Server.AppointmentStore.Delete | server.js:163-172 | 404 and no change for an unknown id; otherwise exactly that record is removed and "Deleted successfully" is returned |
| Text.Trim | server.js:86 | `trim()` gives the middle slice of the text: everything before it and after it is white space, it neither starts nor ends with white space, and it is empty exactly when the text is all white space |
| Text.ToLower | src/components/AppointmentForm.js:99 | `toLowerCase()` keeps the length, lower-cases each ASCII capital and leaves no capital behind, and keeps every white-space position |
| Text.LowerKeepsSpaces | src/components/AppointmentForm.js:99-100 | the lower-cased selection is blank exactly when the selection is |
| Text.TrimKeepsLower | src/components/AppointmentForm.js:99 | trimming a lower-cased text leaves it lower-case |
| Text.Join | server.js:122 | `errors.join(", ")` is "" for no errors and the message itself for one; otherwise it starts with the first message and has the length of all messages plus one separator between each two |
| Text.JoinSnoc | server.js:122 | joining one more message appends ", " and that message, so the error text is the messages in order separated by ", " |
| Text.TrimIdempotent | src/components/AppointmentForm.js:169 | trimming an already trimmed text changes nothing |
| Text.ParseNumber | server.js:91 | `Number(text)` of a blank text is 0 |
| Text.NumberOfDecimalString | server.js:91 | a number sent as JSON and read back with `Number(String(n))` is `n` again |
| Text.Contains | src/components/AppointmentForm.js:104 | `includes` holds exactly when the sub-text occurs at some position |
| Text.StrLeTotal | src/components/AppointmentForm.js:94 | the order used for sorting compares any two texts |
| Text.StrLeTransitive | src/components/AppointmentForm.js:94 | the sorting order is transitive |
| Text.StrLeAntisymmetric | src/components/AppointmentForm.js:94 | two texts each ordered before the other are equal |
| Text.SortStrings | src/components/AppointmentForm.js:94 | `sort` with the string comparator gives an ordered permutation |
| Seqs.FilterProperties | src/components/AppointmentForm.js:101-106 | `filter` keeps exactly the passing elements, in their order, and is no longer than its input |
| Seqs.SortByKey | server.js:138 | `sort({ appointmentDate: 1 })` gives an ascending permutation of the records |
| Seqs.InsertSorted | server.js:138 | inserting a record into an ascending list keeps it ascending |
| Seqs.FilterLength | src/pages/Appointment.js:45 | the length of a filter is the number of positions that pass |
| Seqs.FirstOccurrencesExact | src/components/AppointmentForm.js:92-94 | a `Set` filled front to back holds each element of the input once, and only those |
| Seqs.NoDupPermutation | src/components/AppointmentForm.js:94 | sorting a list without repeats keeps it without repeats |
| Records.Cache.Append | src/components/AppointmentForm.js:192-194 | reading the cache (empty when absent), pushing a record and writing it back leaves the old contents followed by that record |
| Form.DefaultsAgree | src/components/AppointmentForm.js:11-44 | the fallback disease list holds exactly the diseases of the fallback doctors |
| Form.DirectoryFrom | src/components/AppointmentForm.js:74-81 | the directory is the fetched array when it is a non-empty array, and the default doctors otherwise; it is never empty |
| Form.BookingForm.constructor | src/components/AppointmentForm.js:47-62 | the form starts with every field empty, no errors, a cleared status, not submitting, no doctors and the doctors still loading |
| Form.BookingForm.DoctorsLoaded | src/components/AppointmentForm.js:70-84 | when the doctors request settles, the directory is set and loading ends |
| Form.DiseaseSet | src/components/AppointmentForm.js:92-93 | the nested `forEach` leaves the `Set` holding the diseases in order of first occurrence |
| Form.DiseaseOptions | src/components/AppointmentForm.js:91-96 | the drop-down is sorted, without repeats, and holds exactly the diseases some doctor lists; with none listed, it is the default list |
| Form.AddDiseases | src/components/AppointmentForm.js:93 | the inner `forEach` adds one doctor's diseases to the `Set`: the result is the first occurrences of everything walked so far followed by that list |
| Form.GatheredDiseases | src/components/AppointmentForm.js:92-95 | the sorted set holds exactly the listed diseases, and it is empty exactly when no doctor lists one |
| Form.Normalize | src/components/AppointmentForm.js:99-103 | lower-casing then trimming gives a text no longer than the input, without ASCII capitals, empty exactly when the input is blank |
| Form.AvailableDoctors | src/components/AppointmentForm.js:98-108 | empty when the lower-cased, trimmed selection is empty; otherwise exactly the doctors, in directory order, with a normalised disease containing the normalised selection, as many as there are such doctors |
| Form.ContainsItself | src/components/AppointmentForm.js:104 | the exact-match test is covered by the substring test |
| Form.DoctorPanel | src/components/AppointmentForm.js:277-285 | a prompt while no disease is chosen; when the matcher finds nobody, the whole directory; otherwise the matching doctors |
| Form.PanelNeverEmpty | src/components/AppointmentForm.js:277-285 | once a disease is chosen, a non-empty directory always offers some doctor, all taken from the directory |
| Form.BlankSelectionShowsAll | src/components/AppointmentForm.js:99-100 | a chosen disease that is only white space matches nobody, so the whole directory is shown |
| Form.Validate | src/components/AppointmentForm.js:110-135 | one message per failing field with the code's texts; the age message is chosen as required, then not a number, then out of range; a past day is refused; an unparseable date is not; no message exactly when the form is accepted (the field by field rules are the predicate `ValidationOf`) |
| Form.ValidatePatient | src/components/AppointmentForm.js:110-119 | the name, age and gender checks: a message exactly for an empty name, an invalid age and an empty gender, with the age message picked as required, not a number, out of range |
| Form.ValidateBooking | src/components/AppointmentForm.js:121-132 | the disease, doctor and date checks add a message exactly for an empty choice and for a date on an earlier day, and leave the other messages alone |
| Form.WithDisease | src/components/AppointmentForm.js:146 | changing the disease sets it, resets the doctor to "", and leaves every other field as it was, `ageNumber` included |
| Form.ClearChoiceErrors | src/components/AppointmentForm.js:147 | the disease and doctor messages become "", and the others are kept |
| Form.BookingForm.DiseaseChanged | src/components/AppointmentForm.js:144-148 | `handleDiseaseChange` updates the form and errors as above and nothing else |
| Form.DiseaseChangeNeedsDoctor | src/components/AppointmentForm.js:146 | after a change of disease the form is never accepted until a doctor is chosen again |
| Form.PayloadTrimmed | src/components/AppointmentForm.js:169-175 | the payload's name and notes have no surrounding white space |
| Form.AgeSent | src/components/AppointmentForm.js:170 | the numeric age the form sends is never blank to the server, and the server's `Number(body.age)` reads it back as the same number |
| Form.FailedRecordIsStoredShape | src/components/AppointmentForm.js:200-202 | after a failed request, the record handed on is the payload under `tempId`: exactly the record the server would have stored for the same body, with the temporary id as its key |
| Form.StoredRecordCarriesPayload | server.js:124-128 | the record the server stores for the form's body carries the same data as the local fallback record; only the key differs |
| Form.BookingForm.Submit | src/components/AppointmentForm.js:155-211 | a form with errors is not sent: the errors are exactly what validation gives (`ValidationOf`), "Please correct the highlighted fields." is shown and the cache is untouched; an Invalid Date stops the handler with `submitting` still set and the errors unchanged; otherwise exactly one record is appended to the cache |
| Form.BookingForm.Send | src/components/AppointmentForm.js:178-210 | success appends the stored record, resets the form and clears the errors; failure appends the local record and shows "Backend not reachable. Saved locally." |
| Form.AcceptedFormPassesServer | src/components/AppointmentForm.js:168-176 | a form the client accepts builds a body the server accepts, provided the name, disease and doctor are not just white space and the gender is one of the three |
| Form.AcceptedBody | server.js:82-99 | a body built from a payload with non-blank name, disease, doctor and date text, an age in [0, 120] and a known gender, dated today or later, draws no validation error |
| Form.BlankNameRefusedByServer | src/components/AppointmentForm.js:112 | the form accepts a name of white space, and the server then refuses the body as missing a name |
| Page.Appended | src/pages/Appointment.js:34-36 | `addAppointment` keeps the old list as a prefix and puts the new record last |
| Page.UpcomingCount | src/pages/Appointment.js:45 | the upcoming count is the number of records due at or after now, and never exceeds the total |
| Page.UpcomingAfterAppend | src/pages/Appointment.js:44-45 | adding a record raises the total by one, and the upcoming count by one exactly when the record is upcoming |
| Page.AppointmentPage.constructor | src/pages/Appointment.js:6 | the page starts with an empty list, whatever the cache holds |
| Page.AppointmentPage.Persist | src/pages/Appointment.js:30-32 | after the persist effect the cache holds exactly the state |
| Page.AppointmentPage.LoadSettled | src/pages/Appointment.js:12-24 | an array from the server replaces both the state and the cache; otherwise the state becomes what the cache holds, or [] when it holds nothing |
| Page.AppointmentPage.AddAppointment | src/pages/Appointment.js:34-36 | the record is appended and the cache follows the state |
| Page.Mount | src/pages/Appointment.js:6-32 | as written: after a failed load the page shows [] and the cache holds [], whatever was cached before |
| Page.MountCorrected | src/pages/Appointment.js:6-32 | starting from the cached list, a failed load keeps showing the cached records |
| Page.CachedRecordLost | src/pages/Appointment.js:21-24 | one cached record and a failed load: the page as written shows nothing, the corrected page shows the record |
| Chart.ChartData | src/components/Chart.js:17-27 | each disease that occurs maps to the number of appointments naming it; the keys are the distinct diseases in order of first occurrence; `labels` and `data` are aligned; no data gives an empty chart |
| Chart.CountDiseases | src/components/Chart.js:17-20 | after the `forEach`, the dictionary holds each occurring disease with its number of records, and its keys are in order of first occurrence |
| Chart.Tally | src/components/Chart.js:19 | counting one more disease adds one to its count, or makes it a new key with count 1 placed last |
| Chart.ValuesSumToTotal | src/components/Chart.js:18-27 | the bar values add up to the number of appointments |

## Left out

- Interactions with other systems and the clock:
  - Express wiring, the MongoDB connection, the schemas and the doctor seeding are left out.
  - Every `catch` that answers 500 is left out.
  - For the remote calls, only their outcome is modelled.
- A malformed `:id` makes the database throw a cast error, which answers 500. This is not modelled: ids are natural numbers handed out in sequence, in place of database object ids.
- The fields the database adds (`_id`, `__v`, `createdAt`, `updatedAt`) are left out. So are the schema validators and casts. For text values, once `validateAppointmentPayload` has accepted a body they have nothing left to refuse.
- Server.AppointmentStore.List: the order of records with the same appointment date is left open, as the database leaves it.
- Server.DoctorsQuery: the query text goes into a regular expression unescaped. A query holding metacharacters such as `.` or `(` therefore matches by pattern, not as literal text. The model compares literally up to ASCII case.
- Server.Body: the parsed instant `appointmentAt` is a separate component of the body. The predicate `Server.DateReadFromText` ties it to the date text only for an absent or blank text. It is not imposed on every body. A `null` date, which `new Date` reads as 1970, is not tied to its instant.
- Request-body values are modelled as the text `String(value)` gives. A JSON array or object sent as any field is not modelled. Such a value is not blank after `String(...)`, so it passes the required-field rule, but the database's `String` cast then refuses it and the route answers 500. As the gender, `includes` compares the value itself, not its text.
- Text.ParseNumber: `Number()` is modelled for integers in decimal notation only. Fractions, exponents, hexadecimal, `Infinity` and booleans are not modelled.
- Form.FormData: the age is also given as the parse result `ageNumber`, which stands for `Number(age)`. Its agreement with the text is not modelled.
- Dates are instants on one local clock:
  - Parsing date texts and time-zone offsets are not modelled.
  - The `toISOString()` text is the parameter `iso` of the lemmas that need it.
  - Client and server are assumed to read the same `now`, so a submission that crosses midnight is not covered.
- Text.StrLe: `localeCompare` is modelled as code-point lexicographic order. Locale collation is not modelled.
- Text.ToLower folds ASCII capitals only.
- Chart.ChartData:
  - JavaScript puts integer-like keys such as `"2"` first in key order. The model keeps first-occurrence order for every key.
  - Keys such as `__proto__`, `constructor` or `toString` behave differently on a plain object. This is not modelled.
- Form.AvailableDoctors: disease entries that are not strings (`String(x || "")`) are not modelled. Every disease is a string.
- `handleChange` and `handleSelectDoctor` are not part of this model. They are plain field setters that clear one field's message.
- React rendering is left out: the markup, the "Loading diseases..." label, the `min` attribute of the date input, the `today` constant, and the `cancelled` flags.
- In the code, the form's `onAdd` call and its own cache append both reach the page. The page's persist effect then rewrites the cache from the page state. The model keeps the form's append (`Form.BookingForm.Send`) and the page's append (`Page.AppointmentPage.AddAppointment`) as separate steps and does not model the interleaving.
- A cache entry that is not a JSON array, and storage quota errors, are not modelled. The cache always holds a list written by the application.

## Findings

| source | as written | input that shows it | evidently intended | confidence | as-written member | corrected member |
|---|---|---|---|---|---|---|
| src/pages/Appointment.js:30-32 | the persist effect also runs on mount and writes the initial `[]` to the cache, before the load effect's fallback (line 22) reads the cache | a cache holding one record and a `GET /appointments` that fails | the fallback shows the cached records and keeps them in the cache | high, not executed | Page.Mount | Page.MountCorrected |
