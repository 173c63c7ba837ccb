# MedicielBack access core, modelled in Dafny

MedicielBack is a C# back end for a medical-records application. Two kinds
of principal use it: administrators and doctors. Each has a credential store
(`AdminService`, `DoctorService`) with salted SHA-256 password hashes. A
successful sign-in issues a one-hour HS256 bearer token (`TokenService`) and
stores it on the principal's row. `MedicalRecordService` keeps the medical
records; updates and single-record reads match on the record id and on the
owning doctor's id. `AuditService` appends every event to an in-memory log.

Controllers sit in front of the services, in two revisions:

- `controllers/` first reads the token's Role claim (`GetUserRole`). It
  denies roles not allowed for the operation. For record operations it then
  resolves the token to a live doctor session and acts for that doctor.
- `MedicielBack/controllers/` reads no role. A record operation needs only a
  live doctor session, and the full listings of records and doctors are open
  to any caller.

The model has these parts:

- Each table is a sequence of rows in id order, the order a reader returns
  them. `nextId` is the identity counter.
- Each service is a class whose methods update the table in place. Each
  service method's contract ties the new table to a specification function
  over the old one: `WriteToken`, `Revise`, `Without`, `Amend`.
- Each `while (reader.Read())` listing loop is a method whose loop
  invariant is stated with `Filter`.
- A token string is modelled by what the JWT handler parses out of it: the
  claims and a signature, or unparseable text. HMAC-SHA256 and the password
  digest (Base64 of SHA-256 of UTF-8) are uninterpreted function parameters.
- The clock is the `now` parameter, in seconds since 0001-01-01. Salts are
  parameters too.
- The controllers' gates are the functions `Access.Gate` (current revision)
  and `Access.LegacyGate` (older revision). Every gated controller method is
  proved to follow its gate.
- A controller holds its services as fields. The services stand for the
  database tables that every controller shares, so they are passed in.

Deviations from the source text:

- `AdminService.Authenticate` queries a table named `admins`
  (services/AdminService.cs:84). Every other statement uses `admin`. The
  model has one admin table.
- `tokenService.GenerateToken(admin.Id, "Admin")` (services/AdminService.cs:102)
  does not match `GenerateToken(string, string, DateTime)`. The model signs
  the id in decimal, the role "Admin" and the one-hour expiry, as the doctor
  flow does with the matricule.
- The code calls `DoctorService(auditService)` and a two-argument
  `DoctorService.Register`. These are not among the source files shown. They
  are modelled as the full constructor and as `Register` with an empty profile.

## Model

| member | source | states |
|---|---|---|
| Audit.Level.Name | services/AuditService.cs:20-33 | the stored level string is one of "INFO", "WARNING", "ERROR" |
| Audit.AuditService.constructor | services/AuditService.cs:13-18 | a new service starts with an empty log |
| Audit.AuditService.LogInfo | services/AuditService.cs:20-23 | exactly one entry is appended, at level INFO, carrying the message and the user id (none by default); earlier entries are kept |
| Audit.AuditService.LogWarning | services/AuditService.cs:25-28 | exactly one WARNING entry is appended; earlier entries are kept |
| Audit.AuditService.LogError | services/AuditService.cs:30-33 | exactly one ERROR entry is appended; earlier entries are kept |
| Audit.AuditService.Log | services/AuditService.cs:35-48 | the entry goes at the end and the old log is a prefix of the new one |
| Audit.LoggedTwice | services/AuditService.cs:35-48 | two successive appends leave the log grown by both level sequences, in call order |
| Tokens.NewTokenService | services/TokenService.cs:13-19 | construction succeeds iff the secret is present and at least 16 characters long; otherwise it fails with ArgumentException("secretKey"); on success the secret is kept unchanged |
| Tokens.TokenService.GenerateToken | services/TokenService.cs:21-38 | the token carries exactly the Name claim, the Role claim and the expiry given, signed with the HMAC of those claims under the secret |
| Tokens.TokenService.ValidateToken | services/TokenService.cs:40-54 | claims are returned iff the token parses, its signature is the HMAC of its claims under this secret, and the clock is within the expiry plus the 300 s default skew; the claims returned are the token's own |
| Tokens.TokenService.GetUserRole | services/DoctorService.cs:164-174 | the Role claim of a token that validates; Unverified (the exception) exactly when validation fails |
| Tokens.RoleRoundTrip | services/TokenService.cs:21-54 | the Role claim GenerateToken writes is the one GetUserRole reads back, up to the expiry plus the skew |
| Tokens.ExpiredTokenRejected | services/TokenService.cs:40-54 | after the expiry plus the skew, the same token is rejected |
| Tokens.TamperedClaimsRejected | services/TokenService.cs:40-54 | claims altered without re-signing are rejected whenever their HMAC differs from the carried signature |
| Passwords.HashSeesOnlyConcatenation | services/AdminService.cs:257-265 | the hash depends only on password ++ salt, with no separator |
| Passwords.ShiftedSplitHashesAlike | services/DoctorService.cs:449-457 | for every non-empty password, moving its last character to the front of the salt gives the same hash |
| Base.DecimalInjective | services/AdminService.cs:102-108 | distinct admin ids give distinct Name claims, so an admin token names exactly one row |
| Admins.ByToken | services/AdminService.cs:143-186 | a returned admin is a row that holds the token value, with a stored expiry strictly after now; if no row holds the value, nobody is returned (also what `AdminService.GetAdminByToken` and both admin controllers' `GetAdminByToken` return) |
| Admins.HolderUnique | services/AdminService.cs:143-186 | in a consistent table at most one row holds any token value |
| Admins.ByTokenFindsHolder | services/AdminService.cs:143-186 | the row holding a token value is returned while its expiry is after now |
| Admins.WriteTokenConsistent | services/AdminService.cs:226-245 | writing a session that belongs to the row keeps the table invariant |
| Admins.LogoutRevokes | services/AdminService.cs:132-140 | once the holder's row is cleared, the token value resolves to nobody at any time |
| Admins.SignInThenLookup | services/AdminService.cs:99-110 | (corrected sign-in) the issued token resolves to the signed-in row for the whole hour it is valid, and the table stays consistent |
| Admins.AsWrittenSignInIsLost | services/AdminService.cs:91-108 | (sign-in as written) the table is left unchanged, so the returned token resolves to nobody |
| Admins.AdminService.constructor | services/AdminService.cs:17-22 | the table starts empty and consistent, with the counter at 1 |
| Admins.AdminService.Register | services/AdminService.cs:29-77 | refused iff the username is taken, leaving the table unchanged and logging an Error; otherwise exactly one row is appended with the next id, the salted hash and no session, and an Info is logged |
| Admins.AdminService.Authenticate | services/AdminService.cs:79-118 | succeeds iff the username's row has a matching salted hash; an unknown username and a wrong password both give null, an unchanged table and a Warning; on success a one-hour token is issued and written onto that row only |
| Admins.AdminService.Logout | services/AdminService.cs:132-140 | null changes nothing; otherwise the row's session is cleared through UpdateToken, with an Error first when its date cannot be sent |
| Admins.AdminService.GetAllAdmins | services/AdminService.cs:188-224 | every row in table order, each without its session, since `reader["token"] as Token` is always null |
| Admins.AdminService.UpdateToken | services/AdminService.cs:226-245 | the row with the id gets the session and date; a date before 1753 makes SqlClient throw, so the table is left unchanged and an Error is logged |
| Doctors.ById | services/DoctorService.cs:176-219 | Some iff a row has the id; the row returned has that id and no session (also what `DoctorService.GetDoctorById` returns) |
| Doctors.ByToken | services/DoctorService.cs:317-369 | a returned doctor is a row holding the token value, with a stored expiry after now; if no row holds it, nobody is returned (also what `DoctorService.GetDoctorByToken` and the doctor controllers' `GetDoctorByToken` return) |
| Doctors.Listing | services/DoctorService.cs:221-267 | a doctor is listed iff it is a table row, shown without its session, that passes the filter |
| Doctors.Revise | services/DoctorService.cs:459-496 | only the row with the id changes: profile and modification date are replaced, and credentials, session and creation date are kept |
| Doctors.Without | services/DoctorService.cs:498-524 | no row has the id afterwards, and every other row remains |
| Doctors.HolderUnique | services/DoctorService.cs:317-369 | at most one row holds any token value, because matricules are unique |
| Doctors.SameIdSameRow | services/DoctorService.cs:418-437 | ids are unique in a consistent table |
| Doctors.ByTokenFindsHolder | services/DoctorService.cs:317-369 | the holder's row is returned while its expiry is after now |
| Doctors.OnlyDoctorTokensResolve | services/DoctorService.cs:317-369 | a malformed token, or one whose Role claim is not "Doctor", resolves to no doctor |
| Doctors.WriteTokenConsistent | services/DoctorService.cs:418-437 | writing a session that belongs to the row keeps the table invariant |
| Doctors.ReviseConsistent | services/DoctorService.cs:459-496 | a profile update keeps the table invariant |
| Doctors.WithoutConsistent | services/DoctorService.cs:498-524 | a deletion keeps the table invariant |
| Doctors.LogoutRevokes | services/DoctorService.cs:146-162 | once the holder's row is cleared, the token value resolves to nobody at any time |
| Doctors.SignInThenLookup | services/DoctorService.cs:94-144 | the issued token resolves to the signed-in row for its hour, and the table stays consistent |
| Doctors.LoggedOutTokenStillSigned | services/DoctorService.cs:146-162 | after logout the token still validates with Role "Doctor" until its expiry plus the skew, yet resolves to no doctor |
| Doctors.SignInSupersedes | services/DoctorService.cs:121-130 | signing in again at another instant ends the earlier session: the earlier token resolves to nobody |
| Doctors.DoctorService.constructor | services/DoctorService.cs:18-24 | the table starts empty and consistent, with the counter at 1 |
| Doctors.DoctorService.Register | services/DoctorService.cs:26-92 | refused iff the matricule is taken (table unchanged, Error logged); otherwise one row is appended with the next id, the salted hash, the profile, no session and both dates set to now |
| Doctors.DoctorService.Authenticate | services/DoctorService.cs:94-144 | succeeds iff the matricule's row has a matching hash; failure gives null, an unchanged table and a Warning; on success a one-hour token naming the matricule is written onto that row only |
| Doctors.DoctorService.Logout | services/DoctorService.cs:146-162 | null changes nothing; otherwise the row's session is cleared and its date set to now |
| Doctors.DoctorService.Collect | services/DoctorService.cs:221-267 | the reader loop returns exactly the listing of the rows that pass the filter, in table order |
| Doctors.DoctorService.GetDoctorsBySpecialty | services/DoctorService.cs:221-267 | the doctors of that specialty, in table order, without sessions |
| Doctors.DoctorService.GetDoctorsByDepartment | services/DoctorService.cs:269-315 | the doctors of that department, in table order, without sessions |
| Doctors.DoctorService.GetAllDoctors | services/DoctorService.cs:371-416 | every row in table order, without sessions |
| Doctors.DoctorService.UpdateDoctor | services/DoctorService.cs:459-496 | null iff no row has the id (Warning logged); otherwise only that row's profile and date change, and the updated row is returned |
| Doctors.DoctorService.DeleteDoctor | services/DoctorService.cs:498-524 | true iff a row had the id; afterwards no row has it, and nothing else changes |
| Doctors.DoctorService.UpdateToken | services/DoctorService.cs:418-437 | the row with the id gets the session and date; an unsendable date leaves the table unchanged and logs an Error |
| MedicalRecords.ByIdFor | services/MedicalRecordService.cs:143-179 | Some iff a record has both the id and the doctor; the record returned has both (also what `MedicalRecordService.GetRecordById` returns) |
| MedicalRecords.OwnedBy | services/MedicalRecordService.cs:103-141 | exactly the doctor's records |
| MedicalRecords.AmendTouchesOnlyOwned | services/MedicalRecordService.cs:60-101 | an update leaves every record not matching id and doctor as it was |
| MedicalRecords.ForeignRecordHidden | services/MedicalRecordService.cs:143-179 | another doctor's record is never returned to a scoped read |
| MedicalRecords.UpdateThenRead | services/MedicalRecordService.cs:60-179 | reading an updated record back shows the new diagnosis, treatment and dates, and keeps the rest |
| MedicalRecords.AmendConsistent | services/MedicalRecordService.cs:60-101 | an update changes no id, owner, patient or creation date, so ids stay increasing |
| MedicalRecords.MedicalRecordService.constructor | services/MedicalRecordService.cs:13-17 | the table starts empty, with the counter at 1 |
| MedicalRecords.MedicalRecordService.CreateRecord | services/MedicalRecordService.cs:19-58 | exactly one record is appended, with the next id, for that doctor, dated now |
| MedicalRecords.MedicalRecordService.UpdateRecord | services/MedicalRecordService.cs:60-101 | null iff the doctor owns no record with the id (table unchanged, Warning logged); otherwise only that record is amended, and the record returned is built from the arguments (no patient name, creation date unset) |
| MedicalRecords.MedicalRecordService.Collect | services/MedicalRecordService.cs:103-141 | the reader loop returns exactly the records that pass the filter, in table order |
| MedicalRecords.MedicalRecordService.GetRecordsByDoctor | services/MedicalRecordService.cs:103-141 | exactly the doctor's records, in table order |
| MedicalRecords.MedicalRecordService.GetAllMedicalRecords | services/MedicalRecordService.cs:181-218 | every record of every doctor, in table order |
| Access.SessionOwner | controllers/MedicalRecordController.cs:18-33 | the id of the doctor whose live session the token is, present iff the token resolves |
| Access.Gate | controllers/MedicalRecordController.cs:18-95 | raises iff the token does not validate; admits iff the Role claim is allowed for the operation and, for record operations, a live doctor session exists; record operations act for that session's doctor |
| Access.LegacyGate | MedicielBack/controllers/MedicalRecordController.cs:19-62 | record operations are denied iff there is no live doctor session, and otherwise act for that doctor; the full listings are always admitted; nothing raises |
| Access.CurrentNoLooserThanLegacy | controllers/MedicalRecordController.cs:18-95 | whatever the current revision admits, the older one admits, for the same doctor |
| Access.LegacyListingsOpen | MedicielBack/controllers/MedicalRecordController.cs:59-62 | the older revision lists every record and every doctor without a token, where the current one denies a doctor token |
| Access.LegacyIgnoresRole | MedicielBack/controllers/DoctorController.cs:39-77 | the older revision admits a live doctor session whatever its Role claim; the current one denies any role but "Admin" and "Doctor" |
| Access.UnknownRoleDenied | controllers/DoctorController.cs:36-78 | a Role claim other than "Admin" or "Doctor" is denied every operation |
| Access.DoctorRoleCannotListAll | controllers/MedicalRecordController.cs:86-95 | a "Doctor" Role claim may not list all records or all doctors |
| Access.AdminNeverReachesRecords | controllers/MedicalRecordController.cs:52-84 | record reads admit the "Admin" role, but an admin token never resolves to a doctor session, so an admin is still denied |
| Controllers.AdminController.constructor | controllers/AdminController.cs:13-18 | the controller works on the shared tables and audit log |
| Controllers.AdminController.RegisterAdmin | controllers/AdminController.cs:20-32 | refused iff the username is taken; on success the new row is exactly the registered admin; two Info entries or two Error entries are logged |
| Controllers.AdminController.LoginAdmin | controllers/AdminController.cs:34-46 | succeeds iff the password matches; the admin returned is the named one, carrying the token issued for its id now, and the table is the old one with that row's session written; its token resolves to that same admin for the next hour (with the corrected sign-in and a token service); two Info or two Warning entries are logged |
| Controllers.AdminController.LogoutAdmin | controllers/AdminController.cs:48-60 | a token that does not resolve changes nothing and logs a Warning; otherwise that token resolves to nobody at any time afterwards |
| Controllers.AdminController.GetAllAdmins | controllers/AdminController.cs:67-70 | every admin, in table order, without sessions |
| Controllers.AdminController.RegisterDoctor | controllers/AdminController.cs:72-91 | without a live admin session nothing is registered and a Warning is logged; with one, registration is refused iff the matricule is taken, and otherwise the new row has an empty profile |
| Controllers.DoctorController.constructor | controllers/DoctorController.cs:11-14 | the controller works on the shared doctor table |
| Controllers.DoctorController.Register | controllers/DoctorController.cs:16-19 | refused iff the matricule is taken, the table unchanged; otherwise exactly one row is appended: the next id, the matricule, the salted hash of the password, the salt, no session, both dates now and the given profile |
| Controllers.DoctorController.Login | controllers/DoctorController.cs:21-24 | succeeds iff the password matches; the doctor returned is the named one, carrying the token issued for its matricule now, and the table is the old one with that row's session written; the token resolves to that doctor for the next hour |
| Controllers.DoctorController.Logout | controllers/DoctorController.cs:26-29 | the given doctor's session is cleared |
| Controllers.DoctorController.GetDoctorById | controllers/DoctorController.cs:36-45 | follows the gate: raises or is denied as it says; when admitted, returns the row with the id, without its session |
| Controllers.DoctorController.GetDoctorsBySpecialty | controllers/DoctorController.cs:47-56 | follows the gate; when admitted, returns the doctors of that specialty |
| Controllers.DoctorController.GetDoctorsByDepartment | controllers/DoctorController.cs:58-67 | follows the gate; when admitted, returns the doctors of that department |
| Controllers.DoctorController.GetAllDoctors | controllers/DoctorController.cs:69-78 | follows the gate ("Admin" only); when admitted, returns every doctor |
| Controllers.MedicalRecordController.constructor | controllers/MedicalRecordController.cs:12-16 | the controller works on the shared doctor and record tables |
| Controllers.MedicalRecordController.CreateRecord | controllers/MedicalRecordController.cs:18-33 | follows the gate; only when admitted is exactly one record appended: the next id, the session doctor as owner, the given patient name, diagnosis and treatment, all three dates now |
| Controllers.MedicalRecordController.UpdateRecord | controllers/MedicalRecordController.cs:35-50 | follows the gate; when admitted, only the session doctor's record with the id is amended, the reply is null iff the doctor owns no record with the id, and otherwise the record returned is the one built from the arguments for the session doctor and the id (no patient name, creation date unset) |
| Controllers.MedicalRecordController.GetRecords | controllers/MedicalRecordController.cs:52-67 | follows the gate; when admitted, returns exactly the session doctor's records |
| Controllers.MedicalRecordController.GetRecord | controllers/MedicalRecordController.cs:69-84 | follows the gate; a record returned has the id and belongs to the session doctor |
| Controllers.MedicalRecordController.GetAllMedicalRecords | controllers/MedicalRecordController.cs:86-95 | follows the gate ("Admin" only); when admitted, returns every record |
| LegacyControllers.CreateForSession | MedicielBack/controllers/DoctorController.cs:39-47 | without a live doctor session nothing is created or logged; otherwise exactly one record is appended: the next id, the session doctor as owner, the given patient name, diagnosis and treatment, all three dates now |
| LegacyControllers.UpdateForSession | MedicielBack/controllers/DoctorController.cs:49-57 | without a session nothing changes; otherwise only the session doctor's record with the id is amended, the reply is null iff the doctor owns no record with the id, and otherwise the record returned is the one built from the arguments for the session doctor and the id (no patient name, creation date unset) |
| LegacyControllers.ListForSession | MedicielBack/controllers/DoctorController.cs:59-67 | without a session null; otherwise exactly the session doctor's records |
| LegacyControllers.ReadForSession | MedicielBack/controllers/DoctorController.cs:69-77 | without a session null; a record returned has the id and belongs to the session doctor (the `GetRecord` of both older controllers is this function; the record controller's is at MedicielBack/controllers/MedicalRecordController.cs:49-57) |
| LegacyControllers.AdminController.constructor | MedicielBack/controllers/AdminController.cs:13-17 | the controller works on the shared admin and doctor tables |
| LegacyControllers.AdminController.RegisterAdmin | MedicielBack/controllers/AdminController.cs:19-22 | refused iff the username is taken, the table unchanged; otherwise exactly one row is appended: the next id, the username, the salted hash of the password, the salt, no session, both dates now |
| LegacyControllers.AdminController.LoginAdmin | MedicielBack/controllers/AdminController.cs:24-27 | succeeds iff the password matches, the table unchanged on refusal; the admin returned is the named one, carrying the token issued for its id now, and the table is the old one with that row's session written; its token resolves to that admin for the next hour (with the corrected sign-in and a token service) |
| LegacyControllers.AdminController.LogoutAdmin | MedicielBack/controllers/AdminController.cs:29-36 | a token that does not resolve is ignored silently; otherwise the table is the old one with that admin's session cleared, and the token resolves to nobody afterwards |
| LegacyControllers.AdminController.RegisterDoctor | MedicielBack/controllers/AdminController.cs:43-51 | without a live admin session nothing changes; with one, refused iff the matricule is taken, the table unchanged; otherwise exactly one row is appended: the next id, the matricule, the salted hash of the password, the salt, no session, both dates now, an empty profile |
| LegacyControllers.AdminController.GetAllAdmins | MedicielBack/controllers/AdminController.cs:53-56 | every admin, to any caller |
| LegacyControllers.DoctorController.constructor | MedicielBack/controllers/DoctorController.cs:13-17 | the controller works on the shared doctor and record tables |
| LegacyControllers.DoctorController.Register | MedicielBack/controllers/DoctorController.cs:19-22 | refused iff the matricule is taken, the table unchanged; otherwise exactly one row is appended: the next id, the matricule, the salted hash of the password, the salt, no session, both dates now, an empty profile |
| LegacyControllers.DoctorController.Login | MedicielBack/controllers/DoctorController.cs:24-27 | succeeds iff the password matches, the table unchanged on refusal; the doctor returned is the named one, carrying the token issued for its matricule now, and the table is the old one with that row's session written; the token resolves to that doctor for the next hour |
| LegacyControllers.DoctorController.Logout | MedicielBack/controllers/DoctorController.cs:29-32 | the given doctor's session is cleared |
| LegacyControllers.DoctorController.CreateRecord | MedicielBack/controllers/DoctorController.cs:39-47 | follows the session-only gate; when admitted exactly one record is appended: the next id, the session doctor as owner, the given patient name, diagnosis and treatment, all three dates now |
| LegacyControllers.DoctorController.UpdateRecord | MedicielBack/controllers/DoctorController.cs:49-57 | follows the session-only gate; when admitted, only the session doctor's record with the id is amended, the reply is null iff the doctor owns no record with the id, and otherwise the record returned is the one built from the arguments for the session doctor and the id (no patient name, creation date unset) |
| LegacyControllers.DoctorController.GetRecords | MedicielBack/controllers/DoctorController.cs:59-67 | follows the session-only gate |
| LegacyControllers.DoctorController.GetAllDoctors | MedicielBack/controllers/DoctorController.cs:79-82 | every doctor, to any caller |
| LegacyControllers.MedicalRecordController.constructor | MedicielBack/controllers/MedicalRecordController.cs:13-17 | the controller works on the shared doctor and record tables |
| LegacyControllers.MedicalRecordController.CreateRecord | MedicielBack/controllers/MedicalRecordController.cs:19-27 | follows the session-only gate; when admitted exactly one record is appended: the next id, the session doctor as owner, the given patient name, diagnosis and treatment, all three dates now |
| LegacyControllers.MedicalRecordController.UpdateRecord | MedicielBack/controllers/MedicalRecordController.cs:29-37 | follows the session-only gate; when admitted, only the session doctor's record with the id is amended, the reply is null iff the doctor owns no record with the id, and otherwise the record returned is the one built from the arguments for the session doctor and the id (no patient name, creation date unset) |
| LegacyControllers.MedicalRecordController.GetRecords | MedicielBack/controllers/MedicalRecordController.cs:39-47 | follows the session-only gate |
| LegacyControllers.MedicalRecordController.GetAllMedicalRecords | MedicielBack/controllers/MedicalRecordController.cs:59-62 | every record, to any caller |
| Walkthrough.AdminJoins | controllers/AdminController.cs:20-46 | on an empty table "root" registers as id 1, a second "root" is refused, and the sign-in token resolves (with the corrected sign-in and a token service) |
| Walkthrough.DoctorJoins | controllers/AdminController.cs:72-91 | with a live admin session, D100 is registered as id 1 (the blank profile's DateTime.MinValue birth date is stored, see Doctors.DoctorService.Register under Left out) and its sign-in token is a live session of doctor 1 (with the corrected sign-in and a token service) |
| Walkthrough.RecordsFiled | controllers/MedicalRecordController.cs:18-95 | the doctor's record gets id 1 and is owned by the doctor; listing all records is denied to the doctor's token and gives exactly that record to the admin's (with the corrected sign-in and a token service) |
| Walkthrough.ClinicWalkthrough | controllers/MedicalRecordController.cs:86-95 | the whole sequence on fresh, shared tables ends with the admin listing exactly the doctor's one record, while the doctor's request for the full listing is denied (null) (with the corrected sign-in and a token service) |

## Left out

- Database I/O is modelled as in-memory tables. Connection failures and the `catch` blocks that log and return null are not modelled. The exception is the SqlDateTime range check in `UpdateToken`, which the Finding below depends on.
- Doctors.DoctorService.Register: a birth date before 1753 would make SqlClient throw, and the catch would return null. The model stores any date. `Doctors.BlankProfile` carries DateTime.MinValue as its birth date. So every two-argument registration (controllers/AdminController.cs:72-91, MedicielBack/controllers/AdminController.cs:43-51, MedicielBack/controllers/DoctorController.cs:19-22), read as `Register` with that profile, would fail against SQL Server with the same SqlDateTime overflow and register nobody. The model, and `Walkthrough.DoctorJoins` with it, shows the registration succeeding.
- Doctors.DoctorService.UpdateDoctor: the same unchecked birth-date range.
- Admins.AdminService.constructor: it always receives a token service. `AdminService(auditService)` (services/AdminService.cs:23-27), which controllers/AdminController.cs:16 uses, leaves it null, so a correct password there would end in a null reference at line 102.
- Admins.AdminService.Authenticate: this is the corrected sign-in (see Findings). It stamps the modification date with now.
- Admins.AdminService.Authenticate: its query names the table `admins` (services/AdminService.cs:84); the model reads the `admin` table that `Register` writes. The method has no try/catch, so a SqlException from that query (for instance a missing `admins` table) would reach the controller unhandled; that failure is not modelled.
- Tokens.TokenService.GenerateToken: JWT serialisation, Base64url encoding and the header are not modelled. HMAC-SHA256 is an uninterpreted function.
- Tokens.TokenService.ValidateToken: only the signature and the lifetime are modelled. The handler's other checks (algorithm, not-before, token format) are not; issuer and audience checks are switched off in the source as well.
- Passwords.HashSeesOnlyConcatenation: SHA-256, UTF-8 and Base64 are one uninterpreted digest function. Collision resistance is not assumed.
- Salt generation (`GenerateSalt`) is random. The salt is a parameter.
- The unused private `GenerateToken()` of both stores, which makes a random refresh-style token, is not modelled.
- `EncryptionService` and `Program.cs` are not part of this model.
- Audit entries keep no timestamp. `SaveLogToDatabase` and the console echo are not modelled. Each message is kept as the event it reports, with `Event.Text` giving the sentence.
- String comparison in SQL is exact here. Database collation rules (case or trailing-space folding) are not modelled.
- Ids are unbounded naturals. SQL `int` overflow of the identity counter is not modelled.
- The two `DateTime.UtcNow` reads in one call are one `now`.
- Concurrency is not modelled: calls are sequential and each is atomic.
- Controllers.MedicalRecordController.CreateRecord: the 15-argument overload and its extra patient fields are modelled with the 4-field record.
- Controllers.MedicalRecordController.UpdateRecord: the same overload simplification.
- MedicielBack/models (the older `AuditLog` and `MedicalRecord` shapes) and the `Role` property of `Doctor` are not part of this model.

## Findings

| source | as written | input that shows it | evidently intended | confidence | as-written member | corrected member |
|---|---|---|---|---|---|---|
| services/AdminService.cs:91-108 | `Authenticate` builds the admin without `ModificationDate`, so `UpdateToken` sends `DateTime.MinValue` (year 1), which SqlClient rejects; the error is caught and logged, and the session is never stored | any correct username and password: the returned token then resolves to nobody through `GetAdminByToken` | stamp the modification date with now, as `DoctorService.Authenticate` does, so the stored session resolves for its hour | medium, not executed | Admins.AsWrittenSignInIsLost | Admins.SignInThenLookup |
