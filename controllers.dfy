/**
 * The controllers/ revision: AdminController, DoctorController and
 * MedicalRecordController. The service objects a controller holds stand for
 * the database tables, which every controller shares, so they are passed in.
 * Each gated method is proved to follow `Access.Gate`.
 */
module Controllers {
  import opened Base
  import opened Audit
  import opened Tokens
  import opened Access
  import opened Passwords
  import Admins
  import Doctors
  import MedicalRecords

  class AdminController {
    const admins: Admins.AdminService
    const doctors: Doctors.DoctorService
    const audit: AuditService

    ghost predicate Valid()
      reads this, admins, doctors
    {
      admins.Valid() && doctors.Valid() && admins.audit == audit && doctors.audit == audit
    }

    constructor(audit: AuditService, admins: Admins.AdminService, doctors: Doctors.DoctorService)
      requires admins.Valid() && doctors.Valid() && admins.audit == audit && doctors.audit == audit
      ensures Valid() && this.audit == audit && this.admins == admins && this.doctors == doctors
    {
      this.audit := audit;
      this.admins := admins;
      this.doctors := doctors;
    }

    /** The service result, logged once more: Info on success, Error on null. */
    method RegisterAdmin(username: string, password: string, salt: string, now: Instant)
      returns (r: Option<Admins.Admin>)
      requires Valid()
      modifies admins, audit
      ensures Valid()
      ensures r.None? <==> Admins.UsernameTaken(old(admins.rows), username)
      ensures r.None? ==> admins.rows == old(admins.rows)
      ensures r.Some? ==>
                && r.value == Admins.Admin(old(admins.nextId), username, HashPassword(admins.digest, password, salt),
                                           salt, None, now, now)
                && admins.rows == old(admins.rows) + [r.value]
      ensures Logged(old(audit.auditLogs), audit.auditLogs, if r.Some? then [Info, Info] else [Error, Error])
    {
      ghost var logs0 := audit.auditLogs;
      r := admins.Register(username, password, salt, now);
      ghost var logs1 := audit.auditLogs;
      if r.Some? {
        audit.LogInfo(AdminRegisterSucceeded(username));
        LoggedTwice(logs0, logs1, audit.auditLogs, [Info], [Info]);
      } else {
        audit.LogError(AdminRegisterFailed(username));
        LoggedTwice(logs0, logs1, audit.auditLogs, [Error], [Error]);
      }
    }

    /** The service result, logged once more: Info on success, Warning on null. */
    method LoginAdmin(username: string, password: string, now: Instant) returns (r: Option<Admins.Admin>)
      requires Valid()
      modifies admins, audit
      ensures Valid()
      ensures r.Some? <==> Admins.PasswordMatches(admins.digest, old(admins.rows), username, password)
      ensures r.None? ==> admins.rows == old(admins.rows)
      ensures r.Some? ==>
                && r.value.id == Admins.ByUsername(old(admins.rows), username).value.id
                && r.value.token == Some(Admins.IssuedToken(admins.tokens, r.value.id, now))
                && admins.rows == Admins.WriteToken(old(admins.rows), r.value)
                && forall later :: now <= later < now + OneHour ==>
                     && Admins.ByToken(admins.rows, r.value.token.value.value, later).Some?
                     && Admins.ByToken(admins.rows, r.value.token.value.value, later).value.id == r.value.id
      ensures Logged(old(audit.auditLogs), audit.auditLogs, if r.Some? then [Info, Info] else [Warning, Warning])
    {
      ghost var logs0 := audit.auditLogs;
      ghost var k := IndexWhere(admins.rows, (a: Admins.Admin) => a.username == username);
      r := admins.Authenticate(username, password, now);
      ghost var logs1 := audit.auditLogs;
      if r.Some? {
        forall later | now <= later < now + OneHour
          ensures && Admins.ByToken(admins.rows, r.value.token.value.value, later).Some?
                  && Admins.ByToken(admins.rows, r.value.token.value.value, later).value.id == r.value.id
        {
          Admins.SignInThenLookup(old(admins.rows), old(admins.nextId), admins.tokens, k.value, now, later);
        }
        audit.LogInfo(AdminLoginSucceeded(username));
        LoggedTwice(logs0, logs1, audit.auditLogs, [Info], [Info]);
      } else {
        audit.LogWarning(AdminLoginRefused(username));
        LoggedTwice(logs0, logs1, audit.auditLogs, [Warning], [Warning]);
      }
    }

    /**
     * Clears the session the token resolves to; afterwards that token
     * resolves to nobody at any time. A token that does not resolve changes
     * nothing and is logged as a Warning.
     */
    method LogoutAdmin(token: Jwt, now: Instant)
      requires Valid()
      modifies admins, audit
      ensures Valid()
      ensures var a := Admins.ByToken(old(admins.rows), token, now);
              && (a.None? ==> admins.rows == old(admins.rows)
                              && Logged(old(audit.auditLogs), audit.auditLogs, [Warning]))
              && (a.Some? ==> admins.rows == Admins.WriteToken(old(admins.rows), a.value.(token := None))
                              && (forall later :: Admins.ByToken(admins.rows, token, later).None?)
                              && Logged(old(audit.auditLogs), audit.auditLogs, [Info, Info]))
    {
      var admin := admins.GetAdminByToken(token, now);
      if admin.Some? {
        var a := admin.value;
        var i :| 0 <= i < |admins.rows| && admins.rows[i] == a;
        forall later
          ensures Admins.ByToken(Admins.AfterUpdateToken(admins.rows, a.(token := None)), token, later).None?
        {
          Admins.LogoutRevokes(admins.rows, admins.nextId, admins.tokens, a.(token := None), token, later, i);
        }
        ghost var logs0 := audit.auditLogs;
        admins.Logout(admin);
        ghost var logs1 := audit.auditLogs;
        audit.LogInfo(AdminLogoutSucceeded(a.username));
        LoggedTwice(logs0, logs1, audit.auditLogs, [Info], [Info]);
      } else {
        audit.LogWarning(AdminLogoutRefused);
      }
    }

    function GetAdminByToken(token: Jwt, now: int): Option<Admins.Admin>
      reads this, admins
    {
      admins.GetAdminByToken(token, now)
    }

    /** Every admin, to any caller: this listing takes no token. */
    method GetAllAdmins() returns (r: seq<Admins.Admin>)
      requires Valid()
      modifies audit
      ensures Valid()
      ensures r == Project(admins.rows, Admins.Listed)
      ensures Logged(old(audit.auditLogs), audit.auditLogs, [Info])
    {
      r := admins.GetAllAdmins();
    }

    /**
     * Registers a doctor (matricule and password only) for a caller whose
     * token resolves to a live admin session; otherwise nothing is registered.
     */
    method RegisterDoctor(token: Jwt, matricule: string, password: string, salt: string, now: Instant)
      returns (r: Option<Doctors.Doctor>)
      requires Valid()
      modifies doctors, audit
      ensures Valid()
      ensures Admins.ByToken(admins.rows, token, now).None? ==>
                && r.None? && doctors.rows == old(doctors.rows)
                && Logged(old(audit.auditLogs), audit.auditLogs, [Warning])
      ensures Admins.ByToken(admins.rows, token, now).Some? ==>
                && (r.None? <==> Doctors.MatriculeTaken(old(doctors.rows), matricule))
                && (r.None? ==> doctors.rows == old(doctors.rows))
                && (r.Some? ==> && r.value == Doctors.Doctor(old(doctors.nextId), matricule,
                                                             HashPassword(doctors.digest, password, salt), salt,
                                                             None, now, now, Doctors.BlankProfile)
                                && doctors.rows == old(doctors.rows) + [r.value])
                && Logged(old(audit.auditLogs), audit.auditLogs, if r.Some? then [Info, Info] else [Error, Error])
    {
      var admin := admins.GetAdminByToken(token, now);
      if admin.None? {
        audit.LogWarning(DoctorRegisterUnauthorized);
        return None;
      }
      ghost var logs0 := audit.auditLogs;
      r := doctors.Register(matricule, password, Doctors.BlankProfile, salt, now);
      ghost var logs1 := audit.auditLogs;
      if r.Some? {
        audit.LogInfo(DoctorRegisterSucceeded(matricule));
        LoggedTwice(logs0, logs1, audit.auditLogs, [Info], [Info]);
      } else {
        audit.LogError(DoctorRegisterFailed(matricule));
        LoggedTwice(logs0, logs1, audit.auditLogs, [Error], [Error]);
      }
    }
  }

  class DoctorController {
    const doctors: Doctors.DoctorService

    ghost predicate Valid()
      reads this, doctors
    {
      doctors.Valid()
    }

    constructor(doctors: Doctors.DoctorService)
      requires doctors.Valid()
      ensures Valid() && this.doctors == doctors
    {
      this.doctors := doctors;
    }

    /** GetUserRole on the doctor service's TokenService. */
    function Role(token: Jwt, now: int): RoleClaim
      reads this
    {
      doctors.tokens.GetUserRole(token, now)
    }

    method Register(matricule: string, password: string, profile: Doctors.Profile, salt: string, now: Instant)
      returns (r: Option<Doctors.Doctor>)
      requires Valid()
      modifies doctors, doctors.audit
      ensures Valid()
      ensures r.None? <==> Doctors.MatriculeTaken(old(doctors.rows), matricule)
      ensures r.None? ==> doctors.rows == old(doctors.rows)
      ensures r.Some? ==>
                && r.value == Doctors.Doctor(old(doctors.nextId), matricule, HashPassword(doctors.digest, password, salt),
                                             salt, None, now, now, profile)
                && doctors.rows == old(doctors.rows) + [r.value]
    {
      r := doctors.Register(matricule, password, profile, salt, now);
    }

    /** Sign in; the returned session resolves to the doctor's row for the hour it is valid. */
    method Login(matricule: string, password: string, now: Instant) returns (r: Option<Doctors.Doctor>)
      requires Valid()
      modifies doctors, doctors.audit
      ensures Valid()
      ensures r.Some? <==> Doctors.PasswordMatches(doctors.digest, old(doctors.rows), matricule, password)
      ensures r.None? ==> doctors.rows == old(doctors.rows)
      ensures r.Some? ==> && r.value.id == Doctors.ByMatricule(old(doctors.rows), matricule).value.id
                          && r.value.token == Some(Doctors.IssuedToken(doctors.tokens, matricule, now))
                          && doctors.rows == Doctors.WriteToken(old(doctors.rows), r.value)
                          && forall later :: now <= later < now + OneHour ==>
                               && doctors.GetDoctorByToken(r.value.token.value.value, later).Some?
                               && doctors.GetDoctorByToken(r.value.token.value.value, later).value.id == r.value.id
    {
      ghost var k := IndexWhere(doctors.rows, (d: Doctors.Doctor) => d.matricule == matricule);
      r := doctors.Authenticate(matricule, password, now);
      if r.Some? {
        forall later | now <= later < now + OneHour
          ensures && doctors.GetDoctorByToken(r.value.token.value.value, later).Some?
                  && doctors.GetDoctorByToken(r.value.token.value.value, later).value.id == r.value.id
        {
          Doctors.SignInThenLookup(old(doctors.rows), old(doctors.nextId), doctors.tokens, k.value, now, later);
        }
      }
    }

    method Logout(doctor: Option<Doctors.Doctor>, now: Instant)
      requires Valid()
      modifies doctors, doctors.audit
      ensures Valid()
      ensures doctor.None? ==> doctors.rows == old(doctors.rows)
      ensures doctor.Some? ==> doctors.rows == Doctors.WriteToken(old(doctors.rows), doctor.value.(token := None, modificationDate := now))
    {
      doctors.Logout(doctor, now);
    }

    function GetDoctorByToken(token: Jwt, now: int): Option<Doctors.Doctor>
      reads this, doctors
    {
      doctors.GetDoctorByToken(token, now)
    }

    /** The doctor with the id, for an "Admin" or "Doctor" Role claim. */
    function GetDoctorById(doctorId: int, token: Jwt, now: int): (r: Reply<Doctors.Doctor>)
      reads this, doctors
      ensures var v := Gate(Operation.GetDoctorById, Role(token, now), None);
              && (r.Raised? <==> v.Raise?)
              && (v.Deny? ==> r == Returned(None))
              && (v.Admit? ==> r == Returned(Doctors.ById(doctors.rows, doctorId)))
    {
      match Role(token, now)
      case Unverified => Raised
      case Claimed(role) =>
        if role != AdminRole && role != DoctorRole then Returned(None)
        else Returned(doctors.GetDoctorById(doctorId))
    }

    /** The doctors of a specialty, for an "Admin" or "Doctor" Role claim. */
    method GetDoctorsBySpecialty(specialty: string, token: Jwt, now: int) returns (r: Reply<seq<Doctors.Doctor>>)
      requires Valid()
      modifies doctors.audit
      ensures Valid()
      ensures var v := Gate(Operation.GetDoctorsBySpecialty, Role(token, now), None);
              && (r.Raised? <==> v.Raise?)
              && (!v.Admit? ==> doctors.audit.auditLogs == old(doctors.audit.auditLogs))
              && (v.Deny? ==> r == Returned(None))
              && (v.Admit? ==> r == Returned(Some(Doctors.Listing(doctors.rows, (d: Doctors.Doctor) => d.profile.specialty == specialty)))
                               && Logged(old(doctors.audit.auditLogs), doctors.audit.auditLogs, [Info]))
    {
      var role := doctors.tokens.GetUserRole(token, now);
      if role.Unverified? {
        return Raised;
      }
      if role.role != AdminRole && role.role != DoctorRole {
        return Returned(None);
      }
      var found := doctors.GetDoctorsBySpecialty(specialty);
      r := Returned(Some(found));
    }

    /** The doctors of a department, for an "Admin" or "Doctor" Role claim. */
    method GetDoctorsByDepartment(department: string, token: Jwt, now: int) returns (r: Reply<seq<Doctors.Doctor>>)
      requires Valid()
      modifies doctors.audit
      ensures Valid()
      ensures var v := Gate(Operation.GetDoctorsByDepartment, Role(token, now), None);
              && (r.Raised? <==> v.Raise?)
              && (!v.Admit? ==> doctors.audit.auditLogs == old(doctors.audit.auditLogs))
              && (v.Deny? ==> r == Returned(None))
              && (v.Admit? ==> r == Returned(Some(Doctors.Listing(doctors.rows, (d: Doctors.Doctor) => d.profile.department == department)))
                               && Logged(old(doctors.audit.auditLogs), doctors.audit.auditLogs, [Info]))
    {
      var role := doctors.tokens.GetUserRole(token, now);
      if role.Unverified? {
        return Raised;
      }
      if role.role != AdminRole && role.role != DoctorRole {
        return Returned(None);
      }
      var found := doctors.GetDoctorsByDepartment(department);
      r := Returned(Some(found));
    }

    /** Every doctor, for an "Admin" Role claim only. */
    method GetAllDoctors(token: Jwt, now: int) returns (r: Reply<seq<Doctors.Doctor>>)
      requires Valid()
      modifies doctors.audit
      ensures Valid()
      ensures var v := Gate(Operation.GetAllDoctors, Role(token, now), None);
              && (r.Raised? <==> v.Raise?)
              && (!v.Admit? ==> doctors.audit.auditLogs == old(doctors.audit.auditLogs))
              && (v.Deny? ==> r == Returned(None))
              && (v.Admit? ==> r == Returned(Some(Project(doctors.rows, Doctors.Listed)))
                               && Logged(old(doctors.audit.auditLogs), doctors.audit.auditLogs, [Info]))
    {
      var role := doctors.tokens.GetUserRole(token, now);
      if role.Unverified? {
        return Raised;
      }
      if role.role != AdminRole {
        return Returned(None);
      }
      var found := doctors.GetAllDoctors();
      r := Returned(Some(found));
    }
  }

  class MedicalRecordController {
    const doctors: Doctors.DoctorService
    const records: MedicalRecords.MedicalRecordService

    ghost predicate Valid()
      reads this, doctors, records
    {
      doctors.Valid() && records.Valid()
    }

    constructor(doctors: Doctors.DoctorService, records: MedicalRecords.MedicalRecordService)
      requires doctors.Valid() && records.Valid()
      ensures Valid() && this.doctors == doctors && this.records == records
    {
      this.doctors := doctors;
      this.records := records;
    }

    function Role(token: Jwt, now: int): RoleClaim
      reads this
    {
      doctors.tokens.GetUserRole(token, now)
    }

    /** The doctor whose live session the token is. */
    function Session(token: Jwt, now: int): Option<nat>
      reads this, doctors
    {
      SessionOwner(doctors.rows, token, now)
    }

    /** Creates a record owned by the session doctor, for a "Doctor" Role claim with a live session. */
    method CreateRecord(token: Jwt, patientName: string, diagnosis: string, treatment: string, now: Instant)
      returns (r: Reply<MedicalRecords.MedicalRecord>)
      requires Valid()
      modifies records, records.audit
      ensures Valid()
      ensures var v := Gate(Operation.CreateRecord, Role(token, now), Session(token, now));
              && (r.Raised? <==> v.Raise?)
              && (v.Deny? ==> r == Returned(None))
              && (!v.Admit? ==> records.rows == old(records.rows)
                                && records.audit.auditLogs == old(records.audit.auditLogs))
              && (v.Admit? ==> && r.Returned? && r.value.Some?
                               && r.value.value == MedicalRecords.MedicalRecord(old(records.nextId), v.scope.value,
                                                                                patientName, diagnosis, treatment,
                                                                                now, now, now)
                               && records.rows == old(records.rows) + [r.value.value])
    {
      var role := doctors.tokens.GetUserRole(token, now);
      if role.Unverified? {
        return Raised;
      }
      if role.role != DoctorRole {
        return Returned(None);
      }
      var doctor := doctors.GetDoctorByToken(token, now);
      if doctor.None? {
        return Returned(None);
      }
      var record := records.CreateRecord(doctor.value.id, patientName, diagnosis, treatment, now);
      r := Returned(Some(record));
    }

    /**
     * Updates a record of the session doctor, for a "Doctor" Role claim with a
     * live session; another doctor's record is left as it is and null returned.
     */
    method UpdateRecord(token: Jwt, recordId: int, diagnosis: string, treatment: string, now: Instant)
      returns (r: Reply<MedicalRecords.MedicalRecord>)
      requires Valid()
      modifies records, records.audit
      ensures Valid()
      ensures var v := Gate(Operation.UpdateRecord, Role(token, now), Session(token, now));
              && (r.Raised? <==> v.Raise?)
              && (v.Deny? ==> r == Returned(None))
              && (!v.Admit? ==> records.rows == old(records.rows)
                                && records.audit.auditLogs == old(records.audit.auditLogs))
              && (v.Admit? ==> && r.Returned?
                               && records.rows == MedicalRecords.Amend(old(records.rows), v.scope.value, recordId,
                                                                       diagnosis, treatment, now)
                               && (r.value.None? <==> !MedicalRecords.OwnedPresent(old(records.rows), v.scope.value, recordId))
                               && (r.value.Some? ==>
                                     r.value.value == MedicalRecords.Echo(v.scope.value, recordId, diagnosis, treatment, now)))
    {
      var role := doctors.tokens.GetUserRole(token, now);
      if role.Unverified? {
        return Raised;
      }
      if role.role != DoctorRole {
        return Returned(None);
      }
      var doctor := doctors.GetDoctorByToken(token, now);
      if doctor.None? {
        return Returned(None);
      }
      var record := records.UpdateRecord(doctor.value.id, recordId, diagnosis, treatment, now);
      r := Returned(record);
    }

    /** The session doctor's records, for a "Doctor" or "Admin" Role claim with a live doctor session. */
    method GetRecords(token: Jwt, now: int) returns (r: Reply<seq<MedicalRecords.MedicalRecord>>)
      requires Valid()
      modifies records.audit
      ensures Valid()
      ensures var v := Gate(Operation.GetRecords, Role(token, now), Session(token, now));
              && (r.Raised? <==> v.Raise?)
              && (!v.Admit? ==> records.audit.auditLogs == old(records.audit.auditLogs))
              && (v.Deny? ==> r == Returned(None))
              && (v.Admit? ==> r == Returned(Some(MedicalRecords.OwnedBy(records.rows, v.scope.value))))
    {
      var role := doctors.tokens.GetUserRole(token, now);
      if role.Unverified? {
        return Raised;
      }
      if role.role != DoctorRole && role.role != AdminRole {
        return Returned(None);
      }
      var doctor := doctors.GetDoctorByToken(token, now);
      if doctor.None? {
        return Returned(None);
      }
      var found := records.GetRecordsByDoctor(doctor.value.id);
      r := Returned(Some(found));
    }

    /** One record of the session doctor, for a "Doctor" or "Admin" Role claim with a live doctor session. */
    function GetRecord(token: Jwt, recordId: int, now: int): (r: Reply<MedicalRecords.MedicalRecord>)
      reads this, doctors, records
      ensures var v := Gate(Operation.GetRecord, Role(token, now), Session(token, now));
              && (r.Raised? <==> v.Raise?)
              && (v.Deny? ==> r == Returned(None))
              && (v.Admit? ==> r == Returned(MedicalRecords.ByIdFor(records.rows, v.scope.value, recordId)))
              && (r.Returned? && r.value.Some? ==> r.value.value.id == recordId && Session(token, now) == Some(r.value.value.doctorId))
    {
      match Role(token, now)
      case Unverified => Raised
      case Claimed(role) =>
        if role != DoctorRole && role != AdminRole then Returned(None)
        else
          match doctors.GetDoctorByToken(token, now)
          case None => Returned(None)
          case Some(doctor) => Returned(records.GetRecordById(doctor.id, recordId))
    }

    /** Every record, for an "Admin" Role claim only; no session is looked up. */
    method GetAllMedicalRecords(token: Jwt, now: int) returns (r: Reply<seq<MedicalRecords.MedicalRecord>>)
      requires Valid()
      modifies records.audit
      ensures Valid()
      ensures var v := Gate(Operation.GetAllMedicalRecords, Role(token, now), None);
              && (r.Raised? <==> v.Raise?)
              && (!v.Admit? ==> records.audit.auditLogs == old(records.audit.auditLogs))
              && (v.Deny? ==> r == Returned(None))
              && (v.Admit? ==> r == Returned(Some(records.rows)))
    {
      var role := doctors.tokens.GetUserRole(token, now);
      if role.Unverified? {
        return Raised;
      }
      if role.role != AdminRole {
        return Returned(None);
      }
      var found := records.GetAllMedicalRecords();
      r := Returned(Some(found));
    }
  }
}
