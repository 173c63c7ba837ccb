/**
 * The in-memory audit log of AuditService: every LogInfo / LogWarning /
 * LogError call appends one entry carrying the message, the optional user id
 * and the level string "INFO", "WARNING" or "ERROR". A message is kept as the
 * event it reports, with the event's parameters; `Event.Text` is the sentence
 * the services format for it.
 */
module Audit {
  import opened Base

  /** SqlClient's message when a DateTime parameter lies outside the SQL datetime range. */
  const SqlDateTimeOverflow: string :=
    "SqlDateTime overflow. Must be between 1/1/1753 12:00:00 AM and 12/31/9999 11:59:59 PM."

  datatype Level = Info | Warning | Error {
    /** The string stored in AuditLog.Level. */
    function Name(): (s: string)
      ensures s in {"INFO", "WARNING", "ERROR"}
    {
      match this
      case Info => "INFO"
      case Warning => "WARNING"
      case Error => "ERROR"
    }
  }

  /** The occurrences the services and the controllers/ revision report. */
  datatype Event =
    // AdminService
    | AdminUsernameTaken(username: string)
    | AdminRegistered(username: string, id: nat)
    | AdminLoggedIn(username: string, id: nat)
    | AdminLoginFailed(username: string)
    | AdminLoggedOut(username: string, id: nat)
    | AdminsListed
    | AdminTokenNotStored(username: string)
    // DoctorService
    | DoctorMatriculeTaken(matricule: string)
    | DoctorRegistered(matricule: string, id: nat)
    | DoctorLoggedIn(matricule: string, id: nat)
    | DoctorLoginFailed(matricule: string)
    | DoctorLoggedOut(matricule: string, id: nat)
    | DoctorsBySpecialty(specialty: string)
    | DoctorsByDepartment(department: string)
    | DoctorsListed
    | DoctorNotUpdated(doctorId: int)
    | DoctorUpdated(doctorId: int)
    | DoctorNotDeleted(doctorId: int)
    | DoctorDeleted(doctorId: int)
    | DoctorTokenNotStored(matricule: string)
    // MedicalRecordService
    | RecordCreated(newId: nat, doctorId: int)
    | RecordNotUpdated(recordId: int, doctorId: int)
    | RecordUpdated(recordId: int, doctorId: int)
    | RecordsOfDoctor(doctorId: int)
    | RecordsListed
    // controllers/AdminController
    | AdminRegisterSucceeded(username: string)
    | AdminRegisterFailed(username: string)
    | AdminLoginSucceeded(username: string)
    | AdminLoginRefused(username: string)
    | AdminLogoutSucceeded(username: string)
    | AdminLogoutRefused
    | DoctorRegisterUnauthorized
    | DoctorRegisterSucceeded(matricule: string)
    | DoctorRegisterFailed(matricule: string)
  {
    /** The message string logged for the event. */
    function Text(): string {
      match this
      case AdminUsernameTaken(u) => "Registration failed: Username '" + u + "' already exists."
      case AdminRegistered(u, id) => "Admin registered successfully: " + u + " (ID: " + Decimal(id) + ")"
      case AdminLoggedIn(u, id) => "Admin logged in: " + u + " (ID: " + Decimal(id) + ")"
      case AdminLoginFailed(u) => "Authentication failed: Invalid username or password for username '" + u + "'."
      case AdminLoggedOut(u, id) => "Admin logged out: " + u + " (ID: " + Decimal(id) + ")"
      case AdminsListed => "Retrieved successfully all admins."
      case AdminTokenNotStored(u) => "UpdateToken failed for admin '" + u + "'. Exception: " + SqlDateTimeOverflow
      case DoctorMatriculeTaken(m) => "Registration failed: Matricule '" + m + "' already exists."
      case DoctorRegistered(m, id) => "Doctor registered successfully: " + m + " (ID: " + Decimal(id) + ")"
      case DoctorLoggedIn(m, id) => "Doctor logged in successfully: " + m + " (ID: " + Decimal(id) + ")"
      case DoctorLoginFailed(m) => "Authentication failed: Invalid matricule or password for matricule '" + m + "'."
      case DoctorLoggedOut(m, id) => "Doctor logged out successfully: " + m + " (ID: " + Decimal(id) + ")"
      case DoctorsBySpecialty(sp) => "Retrieved doctors by specialty '" + sp + "' successfully."
      case DoctorsByDepartment(dep) => "Retrieved doctors by department '" + dep + "' successfully."
      case DoctorsListed => "Retrieved all doctors successfully."
      case DoctorNotUpdated(id) => "Update failed: Doctor " + IdText(id) + " not found."
      case DoctorUpdated(id) => "Doctor updated successfully: " + IdText(id)
      case DoctorNotDeleted(id) => "Delete failed: Doctor " + IdText(id) + " not found."
      case DoctorDeleted(id) => "Doctor deleted successfully: " + IdText(id)
      case DoctorTokenNotStored(m) => "Operation UpdateToken failed for doctor '" + m + "'. Exception: " + SqlDateTimeOverflow
      case RecordCreated(r, d) => "Medical record created: " + Decimal(r) + " by doctor " + IdText(d)
      case RecordNotUpdated(r, d) => "Update failed: Record " + IdText(r) + " not found for doctor " + IdText(d)
      case RecordUpdated(r, d) => "Medical record updated: " + IdText(r) + " by doctor " + IdText(d)
      case RecordsOfDoctor(d) => "Retrieved records for doctor " + IdText(d) + "."
      case RecordsListed => "Retrieved all medical records."
      case AdminRegisterSucceeded(u) => "Admin registered successfully: " + u
      case AdminRegisterFailed(u) => "Failed to register admin: " + u
      case AdminLoginSucceeded(u) => "Admin logged in successfully: " + u
      case AdminLoginRefused(u) => "Failed to login admin: " + u
      case AdminLogoutSucceeded(u) => "Admin logged out: " + u
      case AdminLogoutRefused => "Failed to logout admin: Invalid token"
      case DoctorRegisterUnauthorized => "Failed to register doctor: Invalid admin token"
      case DoctorRegisterSucceeded(m) => "Doctor registered successfully: " + m
      case DoctorRegisterFailed(m) => "Failed to register doctor: " + m
    }
  }

  datatype AuditLog = AuditLog(userId: Option<string>, action: Event, level: Level) {
    /** The stored Action column: the event's message. */
    function Action(): string {
      action.Text()
    }
  }

  /** `after` is `before` with entries of the given levels appended, in that order. */
  ghost predicate Logged(before: seq<AuditLog>, after: seq<AuditLog>, levels: seq<Level>) {
    && |after| == |before| + |levels|
    && after[..|before|] == before
    && forall k :: 0 <= k < |levels| ==> after[|before| + k].level == levels[k]
  }

  /** Two consecutive appends make one. */
  lemma LoggedTwice(a: seq<AuditLog>, b: seq<AuditLog>, c: seq<AuditLog>, l1: seq<Level>, l2: seq<Level>)
    requires Logged(a, b, l1) && Logged(b, c, l2)
    ensures Logged(a, c, l1 + l2)
  {
    assert c[..|b|] == b;
    assert c[..|a|] == b[..|a|];
    forall k | 0 <= k < |l1 + l2|
      ensures c[|a| + k].level == (l1 + l2)[k]
    {
      if k < |l1| {
        assert c[|a| + k] == b[|a| + k];
      } else {
        assert c[|a| + k] == c[|b| + (k - |l1|)];
      }
    }
  }

  class AuditService {
    var auditLogs: seq<AuditLog>

    constructor()
      ensures auditLogs == []
    {
      auditLogs := [];
    }

    method LogInfo(message: Event, userId: Option<string> := None)
      modifies this
      ensures auditLogs == old(auditLogs) + [AuditLog(userId, message, Info)]
      ensures Logged(old(auditLogs), auditLogs, [Info])
    {
      Log(Info, message, userId);
    }

    method LogWarning(message: Event, userId: Option<string> := None)
      modifies this
      ensures auditLogs == old(auditLogs) + [AuditLog(userId, message, Warning)]
      ensures Logged(old(auditLogs), auditLogs, [Warning])
    {
      Log(Warning, message, userId);
    }

    method LogError(message: Event, userId: Option<string> := None)
      modifies this
      ensures auditLogs == old(auditLogs) + [AuditLog(userId, message, Error)]
      ensures Logged(old(auditLogs), auditLogs, [Error])
    {
      Log(Error, message, userId);
    }

    /** Appends one entry at the end; earlier entries are never edited or removed. */
    method Log(level: Level, message: Event, userId: Option<string>)
      modifies this
      ensures auditLogs == old(auditLogs) + [AuditLog(userId, message, level)]
      ensures old(auditLogs) <= auditLogs
    {
      auditLogs := auditLogs + [AuditLog(userId, message, level)];
    }
  }
}
