# BinaObat backend: a Dafny model of its request handlers

BinaObat is a telehealth backend:
- Administrators issue one-time sign-up tokens for doctors.
- Doctors create patient accounts, are linked to them, prescribe medications and chat with them.
- Patients read their own prescriptions and chat with the doctors linked to them.

This project models the request handlers of the four controllers:
- `controller/Account.js`
- `controller/admincontroller.js`
- `controller/patient.js`
- `controller/chat.js`

Each handler works on a store of tables and returns a `Result`. The tables are users, patient profiles, doctor sign-up tokens, doctor–patient links, prescription headers, medication lines and chat messages. The `Result` is either a value or one of the failures the handler answers with: invalid input, duplicate, invalid token, unauthorized, not found, or invalid credentials.

The modules follow the program:

- `Schema`:
  - the rows and the `Database` class, which has one field per table;
  - the invariant `WellFormed`. It says that auto-increment keys match positions, that no two emails are equal under the collation, that links and headers name existing profiles, and that timestamps are stored in order;
  - the key lookups and subqueries the handlers share;
  - the collation: text in `WHERE` clauses and the UNIQUE email index is compared with ASCII letter case folded, as MySQL's default case-insensitive collations do;
  - bcrypt as a symbolic digest of the first 72 bytes of a password.
- `Hex`: the lower-case hex encoding of the 20 random bytes behind every token. Decoding the encoding gives back the bytes, so distinct entropy gives distinct tokens.
- `Seqs`: a filter-map, `Collect`, that stands for a `SELECT … WHERE … JOIN`. It comes with lemmas on membership, concatenation and order.
- `Accounts`, `Admin`, `Prescriptions` and `Chat`: one module per controller.
  - Handlers that write are methods with `modifies db`. Each states its whole new state and keeps `Valid()`.
  - Handlers that only read are functions over a snapshot of the tables. Lemmas state exactly what they return.
- `Scenarios`: request sequences that combine handlers:
  - a doctor token works once;
  - a created patient can be prescribed to by its doctor alone, and then sees the prescription;
  - a doctor's message reaches the patient's history.

Some handler inputs are values from outside the handler. Each is a parameter:
- The authenticated caller arrives as `(callerId, role)`.
- The random bytes arrive as `entropy`.
- The bcrypt salt arrives as `salt`.
- The database clock `NOW()` arrives as `now`. It is required to be no earlier than any stored timestamp.

## Model

| member | source | states |
|---|---|---|
| Schema.Truncated | controller/Account.js:22 | bcrypt reads the whole password when it has at most 72 bytes, and exactly its first 72 bytes when it is longer |
| Schema.Hash | controller/Account.js:22 | a stored digest matches exactly the passwords that agree with the hashed one on the first 72 bytes |
| Schema.LongPasswordsCollide | controller/Account.js:48 | a password of 72 bytes or more, extended by anything, still matches the digest of the original |
| Schema.CaseIgnored | DBHandler.js:26 | two strings that differ only in the case of ASCII letters compare equal, so the UNIQUE email index and `WHERE` lookups treat them as one |
| Schema.UserWithEmail | controller/Account.js:40-47 | the first user row whose email equals the given one under the collation; none exactly when no row does; with collation-unique emails, the only such row |
| Schema.ProfileOfUser | controller/admincontroller.js:171-182 | the profile id of the user's profile; none exactly when no profile belongs to the user; under the invariant, the unique profile whose user is the caller |
| Schema.ProfileUser | controller/chat.js:46-49 | under the invariant, a user is found exactly when some profile row has the id, and it is that row's user |
| Schema.AddUser | DBHandler.js:23-31 | appending a user with the next id and an email no stored one equals under the collation keeps ids positional and emails unique |
| Schema.Database.constructor | DBHandler.js:21-32 | new tables are empty and well formed |
| Accounts.Signup | controller/Account.js:9-34 | succeeds exactly when no stored email equals the given one under the collation; a failure is Duplicate and writes nothing; success appends one user with the next id, the hashed password, an empty phone number and the requested role |
| Accounts.Signin | controller/Account.js:37-66 | failures are always InvalidCredentials; a session carries an existing user id and that user's stored email, which equals the given one under the collation |
| Accounts.SigninExact | controller/Account.js:40-63 | sign-in succeeds exactly when a user whose email equals the given one under the collation has a digest matching the password, and the session names that user |
| Accounts.SigninAfterSignup | controller/Account.js:9-66 | a user just signed up signs in, under any spelling of the email that differs only in case, exactly with a password agreeing with theirs on the first 72 bytes, and is refused with any other |
| Accounts.Signout | controller/Account.js:68-71 | sign-out always succeeds and touches no table |
| Hex.Token | controller/admincontroller.js:5-7 | a token is 40 hex digits that decode back to the 20 random bytes |
| Hex.DecodeEncode | controller/admincontroller.js:5-7 | decoding the hex text of any bytes gives back those bytes |
| Hex.EncodeInjective | controller/admincontroller.js:5-7 | different bytes give different hex text, so different entropy gives different tokens |
| Admin.MarkUsed | controller/admincontroller.js:58-63 | marking a token used keeps every row's token, and afterwards exactly the unused tokens not equal to it under the collation are still redeemable |
| Admin.CreateDoctorSignupToken | controller/admincontroller.js:9-25 | only an Admin gets a token; others get Unauthorized and nothing is written; the new token row is stored unused and is redeemable |
| Admin.SignupDoctor | controller/admincontroller.js:27-72 | errors come in the handler's order: missing field, then a token no unused row holds (compared under the collation), then an email already stored under the collation; a failure writes nothing; success appends a Doctor user with the next id and marks the token used, so it cannot be redeemed again |
| Admin.CreatePatientByDoctor | controller/admincontroller.js:74-124 | a missing field is InvalidInput and an email already stored under the collation is Duplicate, with nothing written; success appends the Patient user, its profile with the hex token, and the link from the calling doctor, and the new user's profile lookup finds the new profile |
| Admin.NewProfileKeepsWellFormed | controller/admincontroller.js:95-106 | adding the user, profile and link together keeps the invariant, and the new user's profile lookup finds the new profile |
| Admin.GetPatients | controller/admincontroller.js:126-164 | a failure is NotFound; a listing is never empty |
| Admin.GetPatientsExact | controller/admincontroller.js:129-160 | the listing exists exactly when some profile is linked to the doctor; it holds exactly the summaries of the linked profiles with existing users and so shows only linked patients |
| Admin.DeletePatient | controller/admincontroller.js:166-199 | succeeds exactly when the user has a profile linked to the doctor; a failure is NotFound and writes nothing; success removes exactly that one link |
| Prescriptions.PrescribeMedication | controller/patient.js:3-48 | missing patient or empty medications is InvalidInput, then an absent link is Unauthorized, with nothing written; success appends the header with the next id and time `now`, and one line per medication; the receipt reports the id and the line count, and the header's lines read back as the request's medications |
| Prescriptions.NewPrescriptionKeepsWellFormed | controller/patient.js:22-34 | a header for a linked profile, stamped no earlier than stored headers, plus its lines keeps the invariant |
| Prescriptions.MedicationsReadBack | controller/patient.js:31-34 | the lines written for a new header read back as exactly the prescribed medications in order |
| Prescriptions.PrescriptionsOfExact | controller/patient.js:65-71 | a patient's listing holds exactly the summaries of the headers naming the profile whose prescriber exists |
| Prescriptions.PrescriptionsNewestFirst | controller/patient.js:65-71 | since headers are stored in time order, a patient's listing runs from newest to oldest |
| Prescriptions.GetPatientPrescriptions | controller/patient.js:50-82 | a doctor linked to the profile gets its listing; any other caller gets Unauthorized |
| Prescriptions.GetPrescriptionDetails | controller/patient.js:84-153 | Admin or a missing header is Unauthorized; otherwise the caller is refused exactly when they may not view the header (not its prescriber or a linked doctor, not the patient it names); a viewable header without lines is NotFound, and every failure is Unauthorized or NotFound; details carry the header, the prescriber's name and its non-empty medications; a patient only ever gets past the check for a header naming their own profile |
| Prescriptions.GetPatientOwnPrescriptions | controller/patient.js:155-193 | non-patients are Unauthorized, a patient without profile NotFound; otherwise the listing of the caller's own profile |
| Prescriptions.OwnPrescriptionsAreOwn | controller/patient.js:163-182 | every header in a patient's own listing names a profile belonging to that patient |
| Chat.LinkedBothWays | controller/chat.js:16-27 | the doctor's check and the patient's check agree: a doctor reaches a profile exactly when that profile's user reaches the doctor |
| Chat.PartiesOfLinked | controller/chat.js:45-57 | once the link check passes, the conversation is between the caller and the named counterpart's user |
| Chat.SendMessage | controller/chat.js:4-68 | a missing receiver or text is InvalidInput; otherwise it is stored exactly when the caller is a Doctor or Patient passing the link check, else Unauthorized with nothing written; a stored message goes from the caller to the profile's user (doctor) or to the named doctor (patient), stamped `now` |
| Chat.NewMessageKeepsWellFormed | controller/chat.js:45-57 | appending a message with the next id and a timestamp no earlier than stored ones keeps the invariant |
| Chat.GetChatHistory | controller/chat.js:71-151 | a history is returned exactly when the link check passes; otherwise Unauthorized |
| Chat.GetChatHistoryExact | controller/chat.js:105-140 | the history holds exactly the messages between the two users in either direction whose users exist, oldest first, each labelled with the caller's role when the caller sent it and the other role otherwise, and carrying the sender's and receiver's names |
| Chat.GetChatPartners | controller/chat.js:153-186 | Doctor and Patient get a list; any other role is Unauthorized |
| Chat.DoctorPartnersExact | controller/chat.js:158-165 | every partner of a doctor is a linked profile and carries the name of that profile's user, and every linked profile with an existing user is listed with that name |
| Chat.PatientPartnersExact | controller/chat.js:166-173 | every partner of a patient is an existing user linked to the patient's profile and carries that user's name, and every such user is listed with that name |
| Scenarios.TokenWorksOnce | controller/admincontroller.js:34-63 | after a doctor signs up with a fresh token, a second sign-up with the same token is InvalidToken |
| Scenarios.PrescribeForCreatedPatient | controller/patient.js:11-23 | a newly created patient has no prescriptions; another doctor is refused; after the creating doctor prescribes, the patient's own listing is exactly the new header under the doctor's name |
| Scenarios.CreatePatientWithNoPrescriptions | controller/admincontroller.js:74-124 | right after a doctor creates a patient, the patient's own listing is empty, the profile has no header, and the creating doctor is the only one linked to it |
| Scenarios.PrescribeForFreshProfile | controller/patient.js:3-48 | for a profile with no header yet, an unlinked doctor is refused, and after the linked doctor prescribes, the patient's own listing is exactly that header under the doctor's name |
| Scenarios.FreshProfile | controller/patient.js:176-182 | a profile created after the existing headers and links has no header and no earlier link, so its listing is empty |
| Scenarios.OnlyNewHeaderListed | controller/patient.js:176-182 | when the only header naming a profile is the newest row, the profile's listing is that one header |
| Scenarios.MessageReachesPatient | controller/chat.js:45-57 | a doctor's message to a linked profile appears in that patient's history with the doctor, labelled as sent by the Doctor side |
| Scenarios.SentMessageShown | controller/chat.js:125-137 | a stored message from a doctor to a linked profile's user is in that patient's history with the doctor, labelled as the Doctor's |

## Left out

- HTTP status codes, response bodies, cookies and JWT signing are left out. Each handler's outcome is a `Result`, and a sign-in returns the session it would sign.
- Storage failures (the 500 answers) and logging are left out: every query is taken to succeed.
- The handlers' callback chains are not atomic. A header can be stored without lines, a user without a profile or link, and a doctor row without its token marked used when that update fails. The model treats each successful handler as one step.
- Concurrency is left out. Two sign-ups racing on one token could both pass the token check.
- Authentication middleware is left out. The caller arrives as `(callerId, role)`. The model takes the caller's id and role as given. The source as written never sets them: the token signed at sign-in holds only the user id and the email, the middleware stores it as `req.user`, and the handlers read `req.userId` and `req.userRole`. A request without a role is not represented. The handlers treat a missing role like an Admin everywhere except in `createDoctorSignupToken`.
- The `getUser` and `linkDoctorToPatient` routes are not modelled: `controller/Account.js` does not define them.
- Some queries have no `ORDER BY`. For those, the model returns rows in table order.
- `crypto.randomBytes` is an `entropy` parameter. bcrypt is a symbolic digest. Its salt is a parameter and its cost is fixed at 10.
- Schema.Hash: a password is a sequence of characters, and each character counts as one byte. bcrypt's 72-byte limit applies to the UTF-8 bytes, so for passwords with characters outside ASCII the model's prefix is longer than bcrypt's. The same holds for Accounts.SigninAfterSignup and Schema.LongPasswordsCollide.
- Schema.SameKey: the collation folds only ASCII letter case. MySQL's default collations also equate accented and unaccented letters and fold non-ASCII case, and the older ones ignore trailing spaces. None of that is modelled. The tables other than `users` are not created in the source, so they are assumed to use the server's default collation. This affects Accounts.Signup, Accounts.Signin, Admin.SignupDoctor, Admin.CreatePatientByDoctor and Admin.MarkUsed.
- Accounts.Signup: the handler checks no field, and a field absent from the request body is not modelled. In the source, a missing fullname, email or role is stored as NULL in a NOT NULL column, so the insert fails, and a missing password makes bcrypt throw inside the callback, so no response is sent. In the model an empty string is just an empty string, and `Signup` stores it. The same holds for Accounts.Signin, where a missing password fails inside `bcrypt.compare`.
- Schema.WellFormed: ids are modelled as gap-free positions, which is a renaming of the real ids. InnoDB uses up an AUTO_INCREMENT value when an insert fails with a duplicate key, so after a refused sign-up the next real id skips one. Admin.SignupDoctor and Admin.CreatePatientByDoctor return the next position, and Accounts.Signup and Prescriptions.PrescribeMedication work the same way.
- `NOW()` is a `now` parameter that never runs backwards.
- Prescriptions.PrescriptionsNewestFirst: `NOW()` is stored to the second, so headers with equal timestamps come back from `ORDER BY created_at DESC` in an order MySQL leaves unspecified. The model fixes one order: the later-stored header comes first. Likewise, messages with equal `sent_at` are listed in stored order in Chat.GetChatHistoryExact.
- Accounts.Signup: `signup` inserts no phone number into the `NOT NULL` phone column. The model stores an empty phone number instead of modelling the database rejecting the row.
- Admin.SignupDoctor: a duplicate is detected only by email. The users table declares only email as UNIQUE, so phone numbers may repeat.
- Admin.CreatePatientByDoctor: the caller's role is not checked, as in the handler. The uniqueness of patient tokens is not checked either; distinct entropy gives distinct tokens (Hex.EncodeInjective).
- Prescriptions.PrescribeMedication: the caller's role is not checked, only the link, as in the handler. The same holds for Prescriptions.GetPatientPrescriptions.
- Prescriptions.GetPatientPrescriptions: path parameters arrive as strings, and a malformed or non-numeric one is not modelled: the model takes a number. The same holds for Admin.DeletePatient, Prescriptions.GetPrescriptionDetails and Chat.GetChatHistory.
- Prescriptions.PrescribeMedication: the body field `patientId` is a natural number, and 0 stands for missing. In JavaScript a string such as "0" or a negative number is truthy, so the source lets it past the presence check and then refuses it at the link check as Unauthorized. The model cannot represent such a value. The same holds for the body field `receiverId` of Chat.SendMessage.
