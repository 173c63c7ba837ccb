/**
 * The administrator-and-doctor walkthrough, end to end through the
 * controllers/ revision over one shared set of tables: an administrator
 * registers and signs in, registers a doctor, the doctor signs in and files
 * a record, and only the administrator may list every record.
 */
module Walkthrough {
  import opened Base
  import opened Audit
  import opened Tokens
  import opened Access
  import Admins
  import Doctors
  import MedicalRecords
  import Controllers

  /** On an empty admin table, "root" registers as id 1, a second "root" is refused, and "root" signs in. */
  method AdminJoins(admin: Controllers.AdminController, salt1: string, salt2: string, now: Instant)
    returns (adminId: nat, duplicateRefused: bool, adminToken: Jwt)
    requires admin.Valid() && admin.admins.rows == [] && admin.admins.nextId == 1
    modifies admin.admins, admin.audit
    ensures admin.Valid() && admin.doctors.rows == old(admin.doctors.rows)
    ensures adminId == 1 && duplicateRefused
    ensures adminToken == admin.admins.tokens.GenerateToken(Decimal(adminId), AdminRole, now + OneHour)
    ensures Admins.ByToken(admin.admins.rows, adminToken, now).Some?
  {
    var root := admin.RegisterAdmin("root", "pw1", salt1, now);
    adminId := root.value.id;
    assert admin.admins.rows == [root.value];
    var again := admin.RegisterAdmin("root", "pw2", salt2, now);
    duplicateRefused := again.None?;
    assert Admins.ByUsername(admin.admins.rows, "root") == Some(root.value);
    assert Admins.PasswordMatches(admin.admins.digest, admin.admins.rows, "root", "pw1");
    var signedIn := admin.LoginAdmin("root", "pw1", now);
    adminToken := signedIn.value.token.value.value;
  }

  /** With a live admin session and an empty doctor table, D100 is registered as id 1 and signs in. */
  method DoctorJoins(admin: Controllers.AdminController, doctor: Controllers.DoctorController,
                     adminToken: Jwt, salt: string, now: Instant)
    returns (doctorId: nat, doctorToken: Jwt)
    requires admin.Valid() && doctor.doctors == admin.doctors
    requires admin.doctors.rows == [] && admin.doctors.nextId == 1
    requires Admins.ByToken(admin.admins.rows, adminToken, now).Some?
    modifies admin.doctors, admin.audit
    ensures admin.doctors.Valid()
    ensures doctorId == 1
    ensures doctorToken == admin.doctors.tokens.GenerateToken("D100", DoctorRole, now + OneHour)
    ensures SessionOwner(admin.doctors.rows, doctorToken, now) == Some(doctorId)
  {
    var registered := admin.RegisterDoctor(adminToken, "D100", "dpw", salt, now);
    assert admin.doctors.rows == [registered.value];
    assert Doctors.ByMatricule(admin.doctors.rows, "D100") == Some(registered.value);
    assert Doctors.PasswordMatches(admin.doctors.digest, admin.doctors.rows, "D100", "dpw");
    var signedIn := doctor.Login("D100", "dpw", now);
    doctorId := signedIn.value.id;
    doctorToken := signedIn.value.token.value.value;
    assert doctor.doctors.GetDoctorByToken(doctorToken, now).value.id == doctorId;
  }

  /**
   * The doctor files a record on an empty record table; listing every record
   * is then denied to the doctor's token and granted to the admin's.
   */
  method RecordsFiled(records: Controllers.MedicalRecordController, ts: TokenService,
                      doctorToken: Jwt, adminToken: Jwt, doctorId: nat, now: Instant)
    returns (record: MedicalRecords.MedicalRecord,
             doctorListing: Reply<seq<MedicalRecords.MedicalRecord>>,
             adminListing: Reply<seq<MedicalRecords.MedicalRecord>>)
    requires records.Valid() && records.records.rows == [] && records.records.nextId == 1
    requires records.doctors.tokens == ts
    requires doctorToken == ts.GenerateToken("D100", DoctorRole, now + OneHour)
    requires adminToken == ts.GenerateToken(Decimal(1), AdminRole, now + OneHour)
    requires SessionOwner(records.doctors.rows, doctorToken, now) == Some(doctorId)
    modifies records.records, records.records.audit
    ensures record.id == 1 && record.doctorId == doctorId && record.patientName == "Alice"
    ensures doctorListing == Returned(None)
    ensures adminListing == Returned(Some([record]))
  {
    RoleRoundTrip(ts, "D100", DoctorRole, now + OneHour, now);
    var created := records.CreateRecord(doctorToken, "Alice", "flu", "rest", now);
    record := created.value.value;
    assert records.records.rows == [record];
    doctorListing := records.GetAllMedicalRecords(doctorToken, now);
    RoleRoundTrip(ts, Decimal(1), AdminRole, now + OneHour, now);
    adminListing := records.GetAllMedicalRecords(adminToken, now);
  }

  /**
   * The whole walkthrough on fresh, empty tables sharing one token service:
   * the doctor's record is owned by the doctor's id, the doctor's token may
   * not list all records, and the administrator's token lists exactly that
   * one record.
   */
  method ClinicWalkthrough(ts: TokenService, digest: string -> string, salt1: string, salt2: string, salt3: string,
                           now: Instant)
    returns (adminId: nat, duplicateRefused: bool, doctorId: nat, record: MedicalRecords.MedicalRecord,
             doctorListing: Reply<seq<MedicalRecords.MedicalRecord>>,
             adminListing: Reply<seq<MedicalRecords.MedicalRecord>>)
    ensures adminId == 1 && duplicateRefused
    ensures doctorId == 1 && record.id == 1 && record.doctorId == doctorId && record.patientName == "Alice"
    ensures doctorListing == Returned(None)
    ensures adminListing == Returned(Some([record]))
  {
    var audit := new AuditService();
    var admins := new Admins.AdminService(audit, ts, digest);
    var doctors := new Doctors.DoctorService(audit, ts, digest);
    var records := new MedicalRecords.MedicalRecordService(audit);
    var adminController := new Controllers.AdminController(audit, admins, doctors);
    var doctorController := new Controllers.DoctorController(doctors);
    var recordController := new Controllers.MedicalRecordController(doctors, records);

    var adminToken;
    adminId, duplicateRefused, adminToken := AdminJoins(adminController, salt1, salt2, now);
    var doctorToken;
    doctorId, doctorToken := DoctorJoins(adminController, doctorController, adminToken, salt3, now);
    record, doctorListing, adminListing := RecordsFiled(recordController, ts, doctorToken, adminToken, doctorId, now);
  }
}
