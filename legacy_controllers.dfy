/**
 * The MedicielBack/controllers/ revision. No Role claim is read: a record
 * operation needs only a token that resolves to a live doctor session, and
 * acts for that doctor; the full listings of records, doctors and admins are
 * open. Its DoctorController and MedicalRecordController carry the same four
 * record operations, defined once here and called from both.
 */
module LegacyControllers {
  import opened Base
  import opened Audit
  import opened Tokens
  import opened Access
  import opened Passwords
  import Admins
  import Doctors
  import MedicalRecords

  // ---------------------------------------------------------------------------
  // The session-gated record operations.

  /** Creates a record owned by the session doctor; a token without a live session creates nothing. */
  method CreateForSession(doctors: Doctors.DoctorService, records: MedicalRecords.MedicalRecordService,
                          token: Jwt, patientName: string, diagnosis: string, treatment: string, now: Instant)
    returns (r: Option<MedicalRecords.MedicalRecord>)
    requires records.Valid()
    modifies records, records.audit
    ensures records.Valid()
    ensures var v := LegacyGate(Operation.CreateRecord, SessionOwner(doctors.rows, token, now)).value;
            && (v.Deny? ==> r.None? && records.rows == old(records.rows)
                            && records.audit.auditLogs == old(records.audit.auditLogs))
            && (v.Admit? ==> && r == Some(MedicalRecords.MedicalRecord(old(records.nextId), v.scope.value,
                                                                        patientName, diagnosis, treatment,
                                                                        now, now, now))
                             && records.rows == old(records.rows) + [r.value])
  {
    var doctor := doctors.GetDoctorByToken(token, now);
    if doctor.None? {
      return None;
    }
    var record := records.CreateRecord(doctor.value.id, patientName, diagnosis, treatment, now);
    r := Some(record);
  }

  /** Updates a record of the session doctor; another doctor's record is left as it is and null returned. */
  method UpdateForSession(doctors: Doctors.DoctorService, records: MedicalRecords.MedicalRecordService,
                          token: Jwt, recordId: int, diagnosis: string, treatment: string, now: Instant)
    returns (r: Option<MedicalRecords.MedicalRecord>)
    requires records.Valid()
    modifies records, records.audit
    ensures records.Valid()
    ensures var v := LegacyGate(Operation.UpdateRecord, SessionOwner(doctors.rows, token, now)).value;
            && (v.Deny? ==> r.None? && records.rows == old(records.rows)
                            && records.audit.auditLogs == old(records.audit.auditLogs))
            && (v.Admit? ==> && records.rows == MedicalRecords.Amend(old(records.rows), v.scope.value, recordId,
                                                                     diagnosis, treatment, now)
                             && (r.None? <==> !MedicalRecords.OwnedPresent(old(records.rows), v.scope.value, recordId))
                             && (r.None? ==> records.rows == old(records.rows))
                             && (r.Some? ==> r.value == MedicalRecords.Echo(v.scope.value, recordId, diagnosis, treatment, now)))
  {
    var doctor := doctors.GetDoctorByToken(token, now);
    if doctor.None? {
      return None;
    }
    r := records.UpdateRecord(doctor.value.id, recordId, diagnosis, treatment, now);
  }

  /** The session doctor's records. */
  method ListForSession(doctors: Doctors.DoctorService, records: MedicalRecords.MedicalRecordService,
                        token: Jwt, now: int)
    returns (r: Option<seq<MedicalRecords.MedicalRecord>>)
    modifies records.audit
    ensures var v := LegacyGate(Operation.GetRecords, SessionOwner(doctors.rows, token, now)).value;
            && (v.Deny? ==> r.None? && records.audit.auditLogs == old(records.audit.auditLogs))
            && (v.Admit? ==> r == Some(MedicalRecords.OwnedBy(records.rows, v.scope.value)))
  {
    var doctor := doctors.GetDoctorByToken(token, now);
    if doctor.None? {
      return None;
    }
    var found := records.GetRecordsByDoctor(doctor.value.id);
    r := Some(found);
  }

  /** One record of the session doctor. */
  function ReadForSession(doctorRows: seq<Doctors.Doctor>, recordRows: seq<MedicalRecords.MedicalRecord>,
                          token: Jwt, recordId: int, now: int): (r: Option<MedicalRecords.MedicalRecord>)
    ensures var v := LegacyGate(Operation.GetRecord, SessionOwner(doctorRows, token, now)).value;
            && (v.Deny? ==> r.None?)
            && (v.Admit? ==> r == MedicalRecords.ByIdFor(recordRows, v.scope.value, recordId))
    ensures r.Some? ==> r.value.id == recordId && SessionOwner(doctorRows, token, now) == Some(r.value.doctorId)
  {
    match Doctors.ByToken(doctorRows, token, now)
    case None => None
    case Some(doctor) => MedicalRecords.ByIdFor(recordRows, doctor.id, recordId)
  }

  // ---------------------------------------------------------------------------
  // The controllers.

  class AdminController {
    const admins: Admins.AdminService
    const doctors: Doctors.DoctorService

    ghost predicate Valid()
      reads this, admins, doctors
    {
      admins.Valid() && doctors.Valid()
    }

    constructor(admins: Admins.AdminService, doctors: Doctors.DoctorService)
      requires admins.Valid() && doctors.Valid()
      ensures Valid() && this.admins == admins && this.doctors == doctors
    {
      this.admins := admins;
      this.doctors := doctors;
    }

    method RegisterAdmin(username: string, password: string, salt: string, now: Instant)
      returns (r: Option<Admins.Admin>)
      requires Valid()
      modifies admins, admins.audit
      ensures Valid()
      ensures r.None? <==> Admins.UsernameTaken(old(admins.rows), username)
      ensures r.None? ==> admins.rows == old(admins.rows)
      ensures r.Some? ==>
                && r.value == Admins.Admin(old(admins.nextId), username, HashPassword(admins.digest, password, salt),
                                           salt, None, now, now)
                && admins.rows == old(admins.rows) + [r.value]
    {
      r := admins.Register(username, password, salt, now);
    }

    method LoginAdmin(username: string, password: string, now: Instant) returns (r: Option<Admins.Admin>)
      requires Valid()
      modifies admins, admins.audit
      ensures Valid()
      ensures r.Some? <==> Admins.PasswordMatches(admins.digest, old(admins.rows), username, password)
      ensures r.None? ==> admins.rows == old(admins.rows)
      ensures r.Some? ==>
                && r.value.id == Admins.ByUsername(old(admins.rows), username).value.id
                && r.value.token == Some(Admins.IssuedToken(admins.tokens, r.value.id, now))
                && admins.rows == Admins.WriteToken(old(admins.rows), r.value)
                && forall later :: now <= later < now + OneHour ==>
                     && Admins.ByToken(admins.rows, r.value.token.value.value, later).Some?
                     && Admins.ByToken(admins.rows, r.value.token.value.value, later).value.id == r.value.id
    {
      ghost var k := IndexWhere(admins.rows, (a: Admins.Admin) => a.username == username);
      r := admins.Authenticate(username, password, now);
      if r.Some? {
        forall later | now <= later < now + OneHour
          ensures && Admins.ByToken(admins.rows, r.value.token.value.value, later).Some?
                  && Admins.ByToken(admins.rows, r.value.token.value.value, later).value.id == r.value.id
        {
          Admins.SignInThenLookup(old(admins.rows), old(admins.nextId), admins.tokens, k.value, now, later);
        }
      }
    }

    /** Clears the session the token resolves to; a token that does not resolve is ignored silently. */
    method LogoutAdmin(token: Jwt, now: Instant)
      requires Valid()
      modifies admins, admins.audit
      ensures Valid()
      ensures var a := Admins.ByToken(old(admins.rows), token, now);
              && (a.None? ==> admins.rows == old(admins.rows)
                              && admins.audit.auditLogs == old(admins.audit.auditLogs))
              && (a.Some? ==> && admins.rows == Admins.WriteToken(old(admins.rows), a.value.(token := None))
                              && forall later :: Admins.ByToken(admins.rows, token, later).None?)
    {
      var admin := admins.GetAdminByToken(token, now);
      if admin.Some? {
        var a := admin.value;
        var i :| 0 <= i < |admins.rows| && admins.rows[i] == a;
        forall later
          ensures Admins.ByToken(Admins.AfterUpdateToken(admins.rows, a.(token := None)), token, later).None?
        {
          Admins.LogoutRevokes(admins.rows, admins.nextId, admins.tokens, a.(token := None), token, later, i);
        }
        admins.Logout(admin);
      }
    }

    function GetAdminByToken(token: Jwt, now: int): Option<Admins.Admin>
      reads this, admins
    {
      admins.GetAdminByToken(token, now)
    }

    /** Registers a doctor only for a token resolving to a live admin session. */
    method RegisterDoctor(token: Jwt, matricule: string, password: string, salt: string, now: Instant)
      returns (r: Option<Doctors.Doctor>)
      requires Valid()
      modifies doctors, doctors.audit
      ensures Valid()
      ensures Admins.ByToken(admins.rows, token, now).None? ==>
                r.None? && doctors.rows == old(doctors.rows) && doctors.audit.auditLogs == old(doctors.audit.auditLogs)
      ensures Admins.ByToken(admins.rows, token, now).Some? ==>
                && (r.None? <==> Doctors.MatriculeTaken(old(doctors.rows), matricule))
                && (r.None? ==> doctors.rows == old(doctors.rows))
                && (r.Some? ==> && r.value == Doctors.Doctor(old(doctors.nextId), matricule,
                                                             HashPassword(doctors.digest, password, salt), salt,
                                                             None, now, now, Doctors.BlankProfile)
                                && doctors.rows == old(doctors.rows) + [r.value])
    {
      var admin := admins.GetAdminByToken(token, now);
      if admin.None? {
        return None;
      }
      r := doctors.Register(matricule, password, Doctors.BlankProfile, salt, now);
    }

    /** Every admin, to any caller. */
    method GetAllAdmins() returns (r: seq<Admins.Admin>)
      requires Valid()
      modifies admins.audit
      ensures Valid()
      ensures r == Project(admins.rows, Admins.Listed)
    {
      r := admins.GetAllAdmins();
    }
  }

  class DoctorController {
    const doctors: Doctors.DoctorService
    const records: MedicalRecords.MedicalRecordService

    ghost predicate Valid()
      reads this, doctors, records
    {
      doctors.Valid() && records.Valid()
    }

    constructor(doctors: Doctors.DoctorService, records: MedicalRecords.MedicalRecordService)
      requires doctors.Valid() && records.Valid()
      ensures Valid() && this.doctors == doctors && this.records == records
    {
      this.doctors := doctors;
      this.records := records;
    }

    /** Registration with a matricule and password only. */
    method Register(matricule: string, password: string, salt: string, now: Instant) returns (r: Option<Doctors.Doctor>)
      requires Valid()
      modifies doctors, doctors.audit
      ensures Valid()
      ensures r.None? <==> Doctors.MatriculeTaken(old(doctors.rows), matricule)
      ensures r.None? ==> doctors.rows == old(doctors.rows)
      ensures r.Some? ==>
                && r.value == Doctors.Doctor(old(doctors.nextId), matricule, HashPassword(doctors.digest, password, salt),
                                             salt, None, now, now, Doctors.BlankProfile)
                && doctors.rows == old(doctors.rows) + [r.value]
    {
      r := doctors.Register(matricule, password, Doctors.BlankProfile, salt, now);
    }

    method Login(matricule: string, password: string, now: Instant) returns (r: Option<Doctors.Doctor>)
      requires Valid()
      modifies doctors, doctors.audit
      ensures Valid()
      ensures r.Some? <==> Doctors.PasswordMatches(doctors.digest, old(doctors.rows), matricule, password)
      ensures r.None? ==> doctors.rows == old(doctors.rows)
      ensures r.Some? ==> && r.value.id == Doctors.ByMatricule(old(doctors.rows), matricule).value.id
                          && r.value.token == Some(Doctors.IssuedToken(doctors.tokens, matricule, now))
                          && doctors.rows == Doctors.WriteToken(old(doctors.rows), r.value)
                          && forall later :: now <= later < now + OneHour ==>
                               && doctors.GetDoctorByToken(r.value.token.value.value, later).Some?
                               && doctors.GetDoctorByToken(r.value.token.value.value, later).value.id == r.value.id
    {
      ghost var k := IndexWhere(doctors.rows, (d: Doctors.Doctor) => d.matricule == matricule);
      r := doctors.Authenticate(matricule, password, now);
      if r.Some? {
        forall later | now <= later < now + OneHour
          ensures && doctors.GetDoctorByToken(r.value.token.value.value, later).Some?
                  && doctors.GetDoctorByToken(r.value.token.value.value, later).value.id == r.value.id
        {
          Doctors.SignInThenLookup(old(doctors.rows), old(doctors.nextId), doctors.tokens, k.value, now, later);
        }
      }
    }

    method Logout(doctor: Option<Doctors.Doctor>, now: Instant)
      requires Valid()
      modifies doctors, doctors.audit
      ensures Valid()
      ensures doctor.None? ==> doctors.rows == old(doctors.rows)
      ensures doctor.Some? ==> doctors.rows == Doctors.WriteToken(old(doctors.rows), doctor.value.(token := None, modificationDate := now))
    {
      doctors.Logout(doctor, now);
    }

    function GetDoctorByToken(token: Jwt, now: int): Option<Doctors.Doctor>
      reads this, doctors
    {
      doctors.GetDoctorByToken(token, now)
    }

    method CreateRecord(token: Jwt, patientName: string, diagnosis: string, treatment: string, now: Instant)
      returns (r: Option<MedicalRecords.MedicalRecord>)
      requires Valid()
      modifies records, records.audit
      ensures Valid()
      ensures var v := LegacyGate(Operation.CreateRecord, SessionOwner(doctors.rows, token, now)).value;
              && (v.Deny? ==> r.None? && records.rows == old(records.rows))
              && (v.Admit? ==> && r == Some(MedicalRecords.MedicalRecord(old(records.nextId), v.scope.value,
                                                                          patientName, diagnosis, treatment,
                                                                          now, now, now))
                               && records.rows == old(records.rows) + [r.value])
    {
      r := CreateForSession(doctors, records, token, patientName, diagnosis, treatment, now);
    }

    method UpdateRecord(token: Jwt, recordId: int, diagnosis: string, treatment: string, now: Instant)
      returns (r: Option<MedicalRecords.MedicalRecord>)
      requires Valid()
      modifies records, records.audit
      ensures Valid()
      ensures var v := LegacyGate(Operation.UpdateRecord, SessionOwner(doctors.rows, token, now)).value;
              && (v.Deny? ==> r.None? && records.rows == old(records.rows))
              && (v.Admit? ==> && records.rows == MedicalRecords.Amend(old(records.rows), v.scope.value, recordId,
                                                                       diagnosis, treatment, now)
                               && (r.None? <==> !MedicalRecords.OwnedPresent(old(records.rows), v.scope.value, recordId))
                               && (r.Some? ==>
                                     r.value == MedicalRecords.Echo(v.scope.value, recordId, diagnosis, treatment, now)))
    {
      r := UpdateForSession(doctors, records, token, recordId, diagnosis, treatment, now);
    }

    method GetRecords(token: Jwt, now: int) returns (r: Option<seq<MedicalRecords.MedicalRecord>>)
      requires Valid()
      modifies records.audit
      ensures Valid()
      ensures var v := LegacyGate(Operation.GetRecords, SessionOwner(doctors.rows, token, now)).value;
              && (v.Deny? ==> r.None?)
              && (v.Admit? ==> r == Some(MedicalRecords.OwnedBy(records.rows, v.scope.value)))
    {
      r := ListForSession(doctors, records, token, now);
    }

    function GetRecord(token: Jwt, recordId: int, now: int): Option<MedicalRecords.MedicalRecord>
      reads this, doctors, records
    {
      ReadForSession(doctors.rows, records.rows, token, recordId, now)
    }

    /** Every doctor, to any caller: no token is asked for. */
    method GetAllDoctors() returns (r: seq<Doctors.Doctor>)
      requires Valid()
      modifies doctors.audit
      ensures Valid()
      ensures r == Project(doctors.rows, Doctors.Listed)
    {
      r := doctors.GetAllDoctors();
    }
  }

  class MedicalRecordController {
    const doctors: Doctors.DoctorService
    const records: MedicalRecords.MedicalRecordService

    ghost predicate Valid()
      reads this, doctors, records
    {
      doctors.Valid() && records.Valid()
    }

    constructor(doctors: Doctors.DoctorService, records: MedicalRecords.MedicalRecordService)
      requires doctors.Valid() && records.Valid()
      ensures Valid() && this.doctors == doctors && this.records == records
    {
      this.doctors := doctors;
      this.records := records;
    }

    method CreateRecord(token: Jwt, patientName: string, diagnosis: string, treatment: string, now: Instant)
      returns (r: Option<MedicalRecords.MedicalRecord>)
      requires Valid()
      modifies records, records.audit
      ensures Valid()
      ensures var v := LegacyGate(Operation.CreateRecord, SessionOwner(doctors.rows, token, now)).value;
              && (v.Deny? ==> r.None? && records.rows == old(records.rows))
              && (v.Admit? ==> && r == Some(MedicalRecords.MedicalRecord(old(records.nextId), v.scope.value,
                                                                          patientName, diagnosis, treatment,
                                                                          now, now, now))
                               && records.rows == old(records.rows) + [r.value])
    {
      r := CreateForSession(doctors, records, token, patientName, diagnosis, treatment, now);
    }

    method UpdateRecord(token: Jwt, recordId: int, diagnosis: string, treatment: string, now: Instant)
      returns (r: Option<MedicalRecords.MedicalRecord>)
      requires Valid()
      modifies records, records.audit
      ensures Valid()
      ensures var v := LegacyGate(Operation.UpdateRecord, SessionOwner(doctors.rows, token, now)).value;
              && (v.Deny? ==> r.None? && records.rows == old(records.rows))
              && (v.Admit? ==> && records.rows == MedicalRecords.Amend(old(records.rows), v.scope.value, recordId,
                                                                       diagnosis, treatment, now)
                               && (r.None? <==> !MedicalRecords.OwnedPresent(old(records.rows), v.scope.value, recordId))
                               && (r.Some? ==>
                                     r.value == MedicalRecords.Echo(v.scope.value, recordId, diagnosis, treatment, now)))
    {
      r := UpdateForSession(doctors, records, token, recordId, diagnosis, treatment, now);
    }

    method GetRecords(token: Jwt, now: int) returns (r: Option<seq<MedicalRecords.MedicalRecord>>)
      requires Valid()
      modifies records.audit
      ensures Valid()
      ensures var v := LegacyGate(Operation.GetRecords, SessionOwner(doctors.rows, token, now)).value;
              && (v.Deny? ==> r.None?)
              && (v.Admit? ==> r == Some(MedicalRecords.OwnedBy(records.rows, v.scope.value)))
    {
      r := ListForSession(doctors, records, token, now);
    }

    function GetRecord(token: Jwt, recordId: int, now: int): Option<MedicalRecords.MedicalRecord>
      reads this, doctors, records
    {
      ReadForSession(doctors.rows, records.rows, token, recordId, now)
    }

    /** Every record of every doctor, to any caller: no token is asked for. */
    method GetAllMedicalRecords() returns (r: seq<MedicalRecords.MedicalRecord>)
      requires Valid()
      modifies records.audit
      ensures Valid()
      ensures r == records.rows
    {
      r := records.GetAllMedicalRecords();
    }
  }
}
