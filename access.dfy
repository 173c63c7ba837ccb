/**
 * The access rules the controllers apply before touching a store, for both
 * revisions of the controllers:
 *
 *  - controllers/ first asks for the token's Role claim (GetUserRole, which
 *    throws on a token that does not validate), denies roles not listed for
 *    the operation, and for record operations then resolves the token to a
 *    live doctor session, acting for that doctor;
 *  - MedicielBack/controllers/ checks no role: a record operation needs only
 *    the live doctor session, and the two full listings are open.
 */
module Access {
  import opened Base
  import opened Tokens
  import Doctors

  datatype Operation =
    | CreateRecord
    | UpdateRecord
    | GetRecords
    | GetRecord
    | GetAllMedicalRecords
    | GetDoctorById
    | GetDoctorsBySpecialty
    | GetDoctorsByDepartment
    | GetAllDoctors

  /** What a gated controller method returns: the exception from ValidateToken, or a value (null as None). */
  datatype Reply<+T> = Raised | Returned(value: Option<T>)

  /** Raise: GetUserRole threw. Deny: the method returns null untouched. Admit: it calls the store, for `scope`. */
  datatype Verdict = Raise | Deny | Admit(scope: Option<nat>)

  /** The Role claims the controllers/ revision admits to each operation. */
  function AllowedRoles(op: Operation): set<string> {
    match op
    case CreateRecord | UpdateRecord => {DoctorRole}
    case GetRecords | GetRecord => {DoctorRole, AdminRole}
    case GetAllMedicalRecords | GetAllDoctors => {AdminRole}
    case GetDoctorById | GetDoctorsBySpecialty | GetDoctorsByDepartment => {AdminRole, DoctorRole}
  }

  /** The record operations: they resolve the token to a doctor session and act for that doctor. */
  predicate NeedsSession(op: Operation) {
    op.CreateRecord? || op.UpdateRecord? || op.GetRecords? || op.GetRecord?
  }

  /** The id of the doctor whose live session the token is (GetDoctorByToken), if any. */
  function SessionOwner(rows: seq<Doctors.Doctor>, token: Jwt, now: int): (s: Option<nat>)
    ensures s.Some? <==> Doctors.ByToken(rows, token, now).Some?
    ensures s.Some? ==> s.value == Doctors.ByToken(rows, token, now).value.id
  {
    match Doctors.ByToken(rows, token, now)
    case None => None
    case Some(d) => Some(d.id)
  }

  /** The controllers/ gate: role claim first, then the doctor session for record operations. */
  function Gate(op: Operation, claim: RoleClaim, session: Option<nat>): (v: Verdict)
    ensures v.Raise? <==> claim.Unverified?
    ensures v.Admit? <==> claim.Claimed? && claim.role in AllowedRoles(op) && (NeedsSession(op) ==> session.Some?)
    ensures v.Admit? && NeedsSession(op) ==> v.scope == session
    ensures v.Admit? && !NeedsSession(op) ==> v.scope.None?
  {
    match claim
    case Unverified => Raise
    case Claimed(role) =>
      if role !in AllowedRoles(op) then Deny
      else if !NeedsSession(op) then Admit(None)
      else if session.None? then Deny
      else Admit(session)
  }

  /**
   * The MedicielBack/controllers/ gate; None where that revision has no such
   * method (the three doctor lookups).
   */
  function LegacyGate(op: Operation, session: Option<nat>): (v: Option<Verdict>)
    ensures v.Some? <==> NeedsSession(op) || op.GetAllMedicalRecords? || op.GetAllDoctors?
    ensures v.Some? ==> !v.value.Raise?
    ensures v == Some(Deny) <==> NeedsSession(op) && session.None?
    ensures v.Some? && v.value.Admit? && NeedsSession(op) ==> v.value.scope == session
  {
    if NeedsSession(op) then Some(if session.None? then Deny else Admit(session))
    else if op.GetAllMedicalRecords? || op.GetAllDoctors? then Some(Admit(None))
    else None
  }

  // ---------------------------------------------------------------------------
  // Comparing the revisions.

  /** Whatever the current revision admits, the older one admits too, for the same doctor. */
  lemma CurrentNoLooserThanLegacy(op: Operation, claim: RoleClaim, session: Option<nat>)
    requires Gate(op, claim, session).Admit?
    requires LegacyGate(op, session).Some?
    ensures LegacyGate(op, session) == Some(Gate(op, claim, session))
  {
  }

  /** The older revision hands every record and every doctor to a caller without any token. */
  lemma LegacyListingsOpen(op: Operation, claim: RoleClaim, session: Option<nat>)
    requires op.GetAllMedicalRecords? || op.GetAllDoctors?
    ensures LegacyGate(op, session) == Some(Admit(None))
    ensures claim == Claimed(DoctorRole) ==> Gate(op, claim, session) == Deny
    ensures claim.Unverified? ==> Gate(op, claim, session) == Raise
  {
  }

  /** The older revision lets any live doctor session write records whatever its Role claim; the current one does not. */
  lemma LegacyIgnoresRole(op: Operation, role: string, owner: nat)
    requires NeedsSession(op) && role != DoctorRole && role != AdminRole
    ensures LegacyGate(op, Some(owner)) == Some(Admit(Some(owner)))
    ensures Gate(op, Claimed(role), Some(owner)) == Deny
  {
  }

  /** A Role claim other than "Admin" or "Doctor" is denied everything. */
  lemma UnknownRoleDenied(op: Operation, role: string, session: Option<nat>)
    requires role != AdminRole && role != DoctorRole
    ensures Gate(op, Claimed(role), session) == Deny
  {
  }

  /** A doctor's token never lists all records or all doctors in the current revision. */
  lemma DoctorRoleCannotListAll(session: Option<nat>)
    ensures Gate(GetAllMedicalRecords, Claimed(DoctorRole), session) == Deny
    ensures Gate(GetAllDoctors, Claimed(DoctorRole), session) == Deny
  {
  }

  /**
   * Record reads admit the "Admin" role, but an admin token never resolves
   * to a doctor session, so an admin is still denied every record operation.
   */
  lemma AdminNeverReachesRecords(rows: seq<Doctors.Doctor>, nextId: nat, ts: TokenService,
                                 op: Operation, token: Jwt, now: int)
    requires Doctors.Consistent(rows, nextId, ts)
    requires NeedsSession(op)
    requires ts.GetUserRole(token, now) == Claimed(AdminRole)
    ensures Gate(op, ts.GetUserRole(token, now), SessionOwner(rows, token, now)) == Deny
  {
    Doctors.OnlyDoctorTokensResolve(rows, nextId, ts, token, now);
  }
}
