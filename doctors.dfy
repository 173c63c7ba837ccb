/**
 * DoctorService: the `doctor` table of credentials, sessions and profiles.
 *
 * A row holds the matricule (the login name), a salted password hash, the
 * session token with its expiry while signed in, and the professional
 * profile. As for admins, the table is a sequence in id order and `nextId`
 * is the identity counter.
 */
module Doctors {
  import opened Base
  import opened Audit
  import opened Tokens
  import opened Passwords

  /** The columns UpdateDoctor rewrites. */
  datatype Profile = Profile(
    phone: string,
    dateOfBirth: int,
    specialty: string,
    department: string,
    email: string,
    address: string,
    gender: string,
    qualifications: string,
    yearsOfExperience: int)

  /** A profile nobody filled in: null strings, DateTime.MinValue, 0. */
  const BlankProfile: Profile := Profile("", DateTimeMinValue, "", "", "", "", "", "", 0)

  datatype Doctor = Doctor(
    id: nat,
    matricule: string,
    passwordHash: string,
    salt: string,
    token: Option<Token>,
    creationDate: int,
    modificationDate: int,
    profile: Profile)

  predicate HoldsToken(d: Doctor, v: Jwt) {
    d.token.Some? && d.token.value.value == v
  }

  /** The token value signed for a doctor: Name claim = the matricule, Role claim = "Doctor". */
  function DoctorToken(ts: TokenService, matricule: string, expiration: int): Jwt {
    ts.GenerateToken(matricule, DoctorRole, expiration)
  }

  /** The session Authenticate issues at `now`: valid for one hour. */
  function IssuedToken(ts: TokenService, matricule: string, now: int): Token {
    Token(DoctorToken(ts, matricule, now + OneHour), now + OneHour)
  }

  /** A session may be written for d onto its row: none, or one issued to that row's matricule. */
  predicate Writable(ts: TokenService, rows: seq<Doctor>, d: Doctor) {
    d.token.Some? ==>
      && SessionBound(ts, d)
      && forall i :: 0 <= i < |rows| && rows[i].id == d.id ==> rows[i].matricule == d.matricule
  }

  /** A stored session was issued to the row that holds it. */
  predicate SessionBound(ts: TokenService, d: Doctor) {
    d.token.Some? ==> d.token.value.value == DoctorToken(ts, d.matricule, d.token.value.expirationDate)
  }

  /** What each row satisfies on its own: id below the counter, dates storable, session bound. */
  predicate RowOk(ts: TokenService, nextId: nat, d: Doctor) {
    && d.id < nextId
    && SqlRange(d.creationDate) && SqlRange(d.modificationDate)
    && SessionBound(ts, d)
  }

  /** What an earlier row and a later row satisfy: increasing ids, distinct matricules. */
  predicate Ordered(d: Doctor, e: Doctor) {
    d.id < e.id && d.matricule != e.matricule
  }

  ghost predicate Consistent(rows: seq<Doctor>, nextId: nat, ts: TokenService) {
    && 1 <= nextId
    && (forall d :: d in rows ==> RowOk(ts, nextId, d))
    && (forall i, j :: 0 <= i < j < |rows| ==> Ordered(rows[i], rows[j]))
  }

  // ---------------------------------------------------------------------------
  // Queries over the table.

  /** Some row already has the matricule: the registration count query is positive. */
  predicate MatriculeTaken(rows: seq<Doctor>, matricule: string) {
    exists i :: 0 <= i < |rows| && rows[i].matricule == matricule
  }

  /** Some row has this id: the UPDATE or DELETE affects a row. */
  predicate IdPresent(rows: seq<Doctor>, id: int) {
    exists i :: 0 <= i < |rows| && rows[i].id == id
  }

  function ByMatricule(rows: seq<Doctor>, matricule: string): Option<Doctor> {
    FirstWhere(rows, (d: Doctor) => d.matricule == matricule)
  }

  /** What the listings and GetDoctorById return for a row: `reader["token"] as Token` is always null. */
  function Listed(d: Doctor): Doctor {
    d.(token := None)
  }

  /** GetDoctorById: the row with the id, without its session. */
  function ById(rows: seq<Doctor>, id: int): (r: Option<Doctor>)
    ensures r.Some? <==> IdPresent(rows, id)
    ensures r.Some? ==> r.value.id == id && r.value.token.None? && r.value.(token := None) in Project(rows, Listed)
  {
    match IndexWhere(rows, (d: Doctor) => d.id == id)
    case None => None
    case Some(k) =>
      assert Project(rows, Listed)[k] == Listed(rows[k]);
      Some(Listed(rows[k]))
  }

  /** The first row holding the token value, if its stored expiry is strictly after now (GetDoctorByToken). */
  function ByToken(rows: seq<Doctor>, tokenValue: Jwt, now: int): (r: Option<Doctor>)
    ensures r.Some? ==> r.value in rows && HoldsToken(r.value, tokenValue)
                        && r.value.token.value.expirationDate > now
    ensures (forall i :: 0 <= i < |rows| ==> !HoldsToken(rows[i], tokenValue)) ==> r.None?
  {
    match IndexWhere(rows, (d: Doctor) => HoldsToken(d, tokenValue))
    case None => None
    case Some(k) => if rows[k].token.value.expirationDate > now then Some(rows[k]) else None
  }

  /** Authentication succeeds exactly when the matricule has a row whose hash matches the recomputed one. */
  predicate PasswordMatches(digest: string -> string, rows: seq<Doctor>, matricule: string, password: string) {
    var found := ByMatricule(rows, matricule);
    found.Some? && HashPassword(digest, password, found.value.salt) == found.value.passwordHash
  }

  /** The rows a `SELECT * ... WHERE` listing returns, in table order and without sessions. */
  function Listing(rows: seq<Doctor>, keep: Doctor -> bool): (r: seq<Doctor>)
    ensures forall d :: d in r <==> d in Project(rows, Listed) && keep(d)
    ensures forall d :: d in r ==> d.token.None?
    ensures forall i :: 0 <= i < |rows| && keep(Listed(rows[i])) ==> Listed(rows[i]) in r
  {
    var all := Project(rows, Listed);
    assert forall i :: 0 <= i < |rows| ==> all[i] == Listed(rows[i]);
    Filter(all, keep)
  }

  // ---------------------------------------------------------------------------
  // Writes.

  /** The session write: token, its expiry and the modification date of the row with d's id. */
  function WriteToken(rows: seq<Doctor>, d: Doctor): seq<Doctor> {
    seq(|rows|, i requires 0 <= i < |rows| =>
      if rows[i].id == d.id then rows[i].(token := d.token, modificationDate := d.modificationDate)
      else rows[i])
  }

  /** The table after UpdateToken(d): a modification date SqlClient cannot send makes the command throw. */
  function AfterUpdateToken(rows: seq<Doctor>, d: Doctor): seq<Doctor> {
    if SqlRange(d.modificationDate) then WriteToken(rows, d) else rows
  }

  /** The profile update: every profile column and the modification date of the row with the id. */
  function Revise(rows: seq<Doctor>, id: int, profile: Profile, now: int): (r: seq<Doctor>)
    ensures |r| == |rows|
    ensures forall i :: 0 <= i < |rows| ==>
              && r[i].id == rows[i].id && r[i].matricule == rows[i].matricule
              && r[i].passwordHash == rows[i].passwordHash && r[i].salt == rows[i].salt
              && r[i].token == rows[i].token && r[i].creationDate == rows[i].creationDate
    ensures forall i :: 0 <= i < |rows| && rows[i].id == id ==> r[i].profile == profile && r[i].modificationDate == now
    ensures forall i :: 0 <= i < |rows| && rows[i].id != id ==> r[i] == rows[i]
  {
    seq(|rows|, i requires 0 <= i < |rows| =>
      if rows[i].id == id then rows[i].(profile := profile, modificationDate := now) else rows[i])
  }

  /** The deletion of the row with the id. */
  function Without(rows: seq<Doctor>, id: int): (r: seq<Doctor>)
    ensures !IdPresent(r, id)
    ensures forall d :: d in r <==> d in rows && d.id != id
  {
    var r := Filter(rows, (d: Doctor) => d.id != id);
    assert forall i :: 0 <= i < |r| ==> r[i] in r;
    r
  }

  /** The doctor object Authenticate builds from the row: credentials and dates, no profile. */
  function Loaded(d: Doctor): Doctor {
    Doctor(d.id, d.matricule, d.passwordHash, d.salt, None, d.creationDate, d.modificationDate, BlankProfile)
  }

  function SignedIn(d: Doctor, t: Token, now: Instant): Doctor {
    Loaded(d).(token := Some(t), modificationDate := now)
  }

  // ---------------------------------------------------------------------------
  // Properties of the table.

  /** Two rows never hold the same token value: the Name claim is the holder's matricule. */
  lemma HolderUnique(rows: seq<Doctor>, nextId: nat, ts: TokenService, v: Jwt, i: int, j: int)
    requires Consistent(rows, nextId, ts)
    requires 0 <= i < |rows| && 0 <= j < |rows|
    requires HoldsToken(rows[i], v) && HoldsToken(rows[j], v)
    ensures i == j
  {
    assert RowOk(ts, nextId, rows[i]) && RowOk(ts, nextId, rows[j]);
    assert rows[i].matricule == v.claims.name == rows[j].matricule;
  }

  /** Ids are unique. */
  lemma SameIdSameRow(rows: seq<Doctor>, nextId: nat, ts: TokenService, i: int, j: int)
    requires Consistent(rows, nextId, ts)
    requires 0 <= i < |rows| && 0 <= j < |rows| && rows[i].id == rows[j].id
    ensures i == j
  {
  }

  /** The stored-session lookup finds the one holder of a token value, exactly while its expiry lies after now. */
  lemma ByTokenFindsHolder(rows: seq<Doctor>, nextId: nat, ts: TokenService, v: Jwt, now: int, i: int)
    requires Consistent(rows, nextId, ts)
    requires 0 <= i < |rows| && HoldsToken(rows[i], v)
    ensures ByToken(rows, v, now) == if rows[i].token.value.expirationDate > now then Some(rows[i]) else None
  {
    var k := IndexWhere(rows, (d: Doctor) => HoldsToken(d, v));
    assert k.Some?;
    HolderUnique(rows, nextId, ts, v, k.value, i);
  }

  /** A token whose Role claim is not "Doctor" (an admin's, for one) never resolves to a doctor. */
  lemma OnlyDoctorTokensResolve(rows: seq<Doctor>, nextId: nat, ts: TokenService, v: Jwt, now: int)
    requires Consistent(rows, nextId, ts)
    requires v.Malformed? || v.claims.role != DoctorRole
    ensures ByToken(rows, v, now) == None
  {
    forall i | 0 <= i < |rows|
      ensures !HoldsToken(rows[i], v)
    {
      assert RowOk(ts, nextId, rows[i]);
    }
  }

  /** Writing a bound session with a storable date keeps the table consistent. */
  lemma WriteTokenConsistent(rows: seq<Doctor>, nextId: nat, ts: TokenService, d: Doctor)
    requires Consistent(rows, nextId, ts)
    requires Writable(ts, rows, d) && SqlRange(d.modificationDate)
    ensures Consistent(WriteToken(rows, d), nextId, ts)
  {
    var rows' := WriteToken(rows, d);
    forall e | e in rows'
      ensures RowOk(ts, nextId, e)
    {
      var i :| 0 <= i < |rows'| && rows'[i] == e;
      assert rows[i] in rows;
    }
    assert forall i :: 0 <= i < |rows| ==> rows'[i].id == rows[i].id && rows'[i].matricule == rows[i].matricule;
  }

  /** Rewriting a profile keeps the table consistent. */
  lemma ReviseConsistent(rows: seq<Doctor>, nextId: nat, ts: TokenService, id: int, profile: Profile, now: Instant)
    requires Consistent(rows, nextId, ts)
    ensures Consistent(Revise(rows, id, profile, now), nextId, ts)
  {
    var rows' := Revise(rows, id, profile, now);
    forall e | e in rows'
      ensures RowOk(ts, nextId, e)
    {
      var i :| 0 <= i < |rows'| && rows'[i] == e;
      assert rows[i] in rows;
    }
    forall i, j | 0 <= i < j < |rows'|
      ensures Ordered(rows'[i], rows'[j])
    {
      assert Ordered(rows[i], rows[j]);
    }
  }

  /** Deleting a row keeps the table consistent. */
  lemma WithoutConsistent(rows: seq<Doctor>, nextId: nat, ts: TokenService, id: int)
    requires Consistent(rows, nextId, ts)
    ensures Consistent(Without(rows, id), nextId, ts)
  {
    FilterKeepsOrder(rows, (d: Doctor) => d.id != id, Ordered);
  }

  /** After logout clears the row holding a token value, that value resolves to nobody, at any time. */
  lemma LogoutRevokes(rows: seq<Doctor>, nextId: nat, ts: TokenService, d: Doctor, v: Jwt, now: int, i: int)
    requires Consistent(rows, nextId, ts)
    requires d.token.None? && SqlRange(d.modificationDate)
    requires 0 <= i < |rows| && rows[i].id == d.id && HoldsToken(rows[i], v)
    ensures ByToken(AfterUpdateToken(rows, d), v, now) == None
  {
    var rows' := WriteToken(rows, d);
    forall j | 0 <= j < |rows'|
      ensures !HoldsToken(rows'[j], v)
    {
      if rows[j].id != d.id && HoldsToken(rows[j], v) {
        HolderUnique(rows, nextId, ts, v, i, j);
      }
    }
  }

  /** Sign-in: the issued token resolves to the signed-in row, with its profile, for the hour it is valid. */
  lemma SignInThenLookup(rows: seq<Doctor>, nextId: nat, ts: TokenService, i: int, now: Instant, later: int)
    requires Consistent(rows, nextId, ts)
    requires 0 <= i < |rows| && later < now + OneHour
    ensures var t := IssuedToken(ts, rows[i].matricule, now);
            var rows' := AfterUpdateToken(rows, SignedIn(rows[i], t, now));
            && Consistent(rows', nextId, ts)
            && rows'[i] == rows[i].(token := Some(t), modificationDate := now)
            && ByToken(rows', t.value, later) == Some(rows'[i])
  {
    var t := IssuedToken(ts, rows[i].matricule, now);
    var d := SignedIn(rows[i], t, now);
    WriteTokenConsistent(rows, nextId, ts, d);
    var rows' := WriteToken(rows, d);
    ByTokenFindsHolder(rows', nextId, ts, t.value, later, i);
  }

  /**
   * Logout revokes the session, not the signature: until its expiry plus the
   * clock skew the token still carries the "Doctor" Role claim, yet it no
   * longer resolves to any doctor.
   */
  lemma LoggedOutTokenStillSigned(rows: seq<Doctor>, nextId: nat, ts: TokenService, i: int, now: Instant, later: int)
    requires Consistent(rows, nextId, ts)
    requires 0 <= i < |rows| && rows[i].token.Some?
    requires later <= rows[i].token.value.expirationDate + ClockSkew
    ensures var v := rows[i].token.value.value;
            && ts.GetUserRole(v, later) == Claimed(DoctorRole)
            && ByToken(AfterUpdateToken(rows, rows[i].(token := None, modificationDate := now)), v, later) == None
  {
    assert RowOk(ts, nextId, rows[i]);
    RoleRoundTrip(ts, rows[i].matricule, DoctorRole, rows[i].token.value.expirationDate, later);
    LogoutRevokes(rows, nextId, ts, rows[i].(token := None, modificationDate := now), rows[i].token.value.value, later, i);
  }

  /** Signing in again at another instant ends the earlier session: the earlier token resolves to nobody. */
  lemma SignInSupersedes(rows: seq<Doctor>, nextId: nat, ts: TokenService, i: int,
                         first: Instant, second: Instant, later: int)
    requires Consistent(rows, nextId, ts)
    requires 0 <= i < |rows| && rows[i].token == Some(IssuedToken(ts, rows[i].matricule, first))
    requires first != second
    ensures var t := IssuedToken(ts, rows[i].matricule, second);
            ByToken(AfterUpdateToken(rows, SignedIn(rows[i], t, second)),
                    IssuedToken(ts, rows[i].matricule, first).value, later) == None
  {
    var v := IssuedToken(ts, rows[i].matricule, first).value;
    var t := IssuedToken(ts, rows[i].matricule, second);
    var rows' := WriteToken(rows, SignedIn(rows[i], t, second));
    forall j | 0 <= j < |rows'|
      ensures !HoldsToken(rows'[j], v)
    {
      if rows[j].id == rows[i].id {
        assert rows'[j].token.value.value.claims.expires == second + OneHour;
      } else if HoldsToken(rows[j], v) {
        HolderUnique(rows, nextId, ts, v, i, j);
      }
    }
  }

  // ---------------------------------------------------------------------------
  // The service.

  class DoctorService {
    var rows: seq<Doctor>
    var nextId: nat
    const audit: AuditService
    const tokens: TokenService
    /** Base64 . SHA-256 . UTF-8, used by HashPassword. */
    const digest: string -> string

    ghost predicate Valid()
      reads this
    {
      Consistent(rows, nextId, tokens)
    }

    constructor(audit: AuditService, tokens: TokenService, digest: string -> string)
      ensures Valid() && rows == [] && nextId == 1
      ensures this.audit == audit && this.tokens == tokens && this.digest == digest
    {
      this.audit := audit;
      this.tokens := tokens;
      this.digest := digest;
      rows := [];
      nextId := 1;
    }

    /** Register with the freshly generated `salt`: a taken matricule is refused and nothing is inserted. */
    method Register(matricule: string, password: string, profile: Profile, salt: string, now: Instant)
      returns (r: Option<Doctor>)
      requires Valid()
      modifies this, audit
      ensures Valid()
      ensures r.None? <==> MatriculeTaken(old(rows), matricule)
      ensures r.None? ==> rows == old(rows) && nextId == old(nextId)
                          && Logged(old(audit.auditLogs), audit.auditLogs, [Error])
      ensures r.Some? ==>
                && r.value == Doctor(old(nextId), matricule, HashPassword(digest, password, salt), salt,
                                     None, now, now, profile)
                && rows == old(rows) + [r.value] && nextId == old(nextId) + 1
                && Logged(old(audit.auditLogs), audit.auditLogs, [Info])
    {
      if MatriculeTaken(rows, matricule) {
        audit.LogError(DoctorMatriculeTaken(matricule));
        return None;
      }
      var passwordHash := HashPassword(digest, password, salt);
      var id := nextId;
      var doctor := Doctor(id, matricule, passwordHash, salt, None, now, now, profile);
      forall i | 0 <= i < |rows|
        ensures Ordered(rows[i], doctor)
      {
        assert rows[i] in rows;
      }
      rows := rows + [doctor];
      nextId := nextId + 1;
      audit.LogInfo(DoctorRegistered(matricule, id));
      r := Some(doctor);
    }

    /**
     * Sign in: on a matching hash a one-hour token is issued and written, with
     * the modification date, onto the doctor's row only.
     */
    method Authenticate(matricule: string, password: string, now: Instant) returns (r: Option<Doctor>)
      requires Valid()
      modifies this, audit
      ensures Valid() && nextId == old(nextId)
      ensures r.Some? <==> PasswordMatches(digest, old(rows), matricule, password)
      ensures r.None? ==> rows == old(rows) && Logged(old(audit.auditLogs), audit.auditLogs, [Warning])
      ensures r.Some? ==>
                var d := ByMatricule(old(rows), matricule).value;
                && r.value == SignedIn(d, IssuedToken(tokens, d.matricule, now), now)
                && rows == WriteToken(old(rows), r.value)
                && Logged(old(audit.auditLogs), audit.auditLogs, [Info])
    {
      var found := ByMatricule(rows, matricule);
      if found.Some? {
        var doctor := Loaded(found.value);
        var passwordHash := HashPassword(digest, password, doctor.salt);
        if passwordHash == doctor.passwordHash {
          var token := tokens.GenerateToken(doctor.matricule, DoctorRole, now + OneHour);
          doctor := doctor.(token := Some(Token(token, now + OneHour)));
          doctor := doctor.(modificationDate := now);
          var k := IndexWhere(rows, (d: Doctor) => d.matricule == matricule).value;
          forall i | 0 <= i < |rows| && rows[i].id == doctor.id
            ensures rows[i].matricule == doctor.matricule
          {
            SameIdSameRow(rows, nextId, tokens, i, k);
          }
          UpdateToken(doctor);
          audit.LogInfo(DoctorLoggedIn(matricule, doctor.id));
          return Some(doctor);
        }
      }
      audit.LogWarning(DoctorLoginFailed(matricule));
      r := None;
    }

    /** Clears the session of the given doctor's row and stamps it; a missing doctor is a no-op. */
    method Logout(doctor: Option<Doctor>, now: Instant)
      requires Valid()
      modifies this, audit
      ensures Valid() && nextId == old(nextId)
      ensures doctor.None? ==> rows == old(rows) && audit.auditLogs == old(audit.auditLogs)
      ensures doctor.Some? ==>
                && rows == WriteToken(old(rows), doctor.value.(token := None, modificationDate := now))
                && Logged(old(audit.auditLogs), audit.auditLogs, [Info])
    {
      if doctor.Some? {
        var d := doctor.value.(token := None, modificationDate := now);
        UpdateToken(d);
        audit.LogInfo(DoctorLoggedOut(d.matricule, d.id));
      }
    }

    /** The row with the id, without its session (GetDoctorById). */
    function GetDoctorById(doctorId: int): Option<Doctor>
      reads this
    {
      ById(rows, doctorId)
    }

    /** The live doctor session a token value resolves to (GetDoctorByToken). */
    function GetDoctorByToken(tokenValue: Jwt, now: int): Option<Doctor>
      reads this
    {
      ByToken(rows, tokenValue, now)
    }

    /** The `while (reader.Read())` loop shared by the three listings. */
    method Collect(keep: Doctor -> bool) returns (doctors: seq<Doctor>)
      ensures doctors == Listing(rows, keep)
    {
      doctors := [];
      var i := 0;
      while i < |rows|
        invariant 0 <= i <= |rows|
        invariant doctors == Filter(Project(rows[..i], Listed), keep)
      {
        var before, after := Project(rows[..i], Listed), Project(rows[..i + 1], Listed);
        assert after[..|after| - 1] == before && after[|after| - 1] == Listed(rows[i]);
        if keep(Listed(rows[i])) {
          doctors := doctors + [Listed(rows[i])];
        }
        i := i + 1;
      }
      assert rows[..i] == rows;
    }

    /** The doctors of one specialty, in table order and without sessions. */
    method GetDoctorsBySpecialty(specialty: string) returns (doctors: seq<Doctor>)
      modifies audit
      ensures doctors == Listing(rows, (d: Doctor) => d.profile.specialty == specialty)
      ensures Logged(old(audit.auditLogs), audit.auditLogs, [Info])
    {
      doctors := Collect((d: Doctor) => d.profile.specialty == specialty);
      audit.LogInfo(DoctorsBySpecialty(specialty));
    }

    /** The doctors of one department, in table order and without sessions. */
    method GetDoctorsByDepartment(department: string) returns (doctors: seq<Doctor>)
      modifies audit
      ensures doctors == Listing(rows, (d: Doctor) => d.profile.department == department)
      ensures Logged(old(audit.auditLogs), audit.auditLogs, [Info])
    {
      doctors := Collect((d: Doctor) => d.profile.department == department);
      audit.LogInfo(DoctorsByDepartment(department));
    }

    /** Every row, in table order, each without its session. */
    method GetAllDoctors() returns (doctors: seq<Doctor>)
      modifies audit
      ensures doctors == Project(rows, Listed)
      ensures Logged(old(audit.auditLogs), audit.auditLogs, [Info])
    {
      doctors := Collect((d: Doctor) => true);
      FilterKeepAll(Project(rows, Listed), (d: Doctor) => true);
      audit.LogInfo(DoctorsListed);
    }

    /**
     * Rewrites the profile of the row with the id and stamps it; credentials
     * and session are untouched. The updated row is read back by id.
     */
    method UpdateDoctor(doctorId: int, profile: Profile, now: Instant) returns (r: Option<Doctor>)
      requires Valid()
      modifies this, audit
      ensures Valid() && nextId == old(nextId)
      ensures rows == Revise(old(rows), doctorId, profile, now)
      ensures r.None? <==> !IdPresent(old(rows), doctorId)
      ensures r.None? ==> rows == old(rows) && Logged(old(audit.auditLogs), audit.auditLogs, [Warning])
      ensures r.Some? ==> && r == ById(rows, doctorId) && r.value.profile == profile
                          && r.value.modificationDate == now
                          && Logged(old(audit.auditLogs), audit.auditLogs, [Info])
    {
      var affected := IdPresent(rows, doctorId);
      ReviseConsistent(rows, nextId, tokens, doctorId, profile, now);
      rows := Revise(rows, doctorId, profile, now);
      if !affected {
        assert rows == old(rows);
        audit.LogWarning(DoctorNotUpdated(doctorId));
        return None;
      }
      r := GetDoctorById(doctorId);
      var k := IndexWhere(rows, (d: Doctor) => d.id == doctorId).value;
      assert rows[k] == old(rows)[k].(profile := profile, modificationDate := now);
      audit.LogInfo(DoctorUpdated(doctorId));
    }

    /** Deletes the row with the id; true exactly when there was one. */
    method DeleteDoctor(doctorId: int) returns (deleted: bool)
      requires Valid()
      modifies this, audit
      ensures Valid() && nextId == old(nextId)
      ensures rows == Without(old(rows), doctorId)
      ensures deleted <==> IdPresent(old(rows), doctorId)
      ensures Logged(old(audit.auditLogs), audit.auditLogs, if deleted then [Info] else [Warning])
    {
      deleted := IdPresent(rows, doctorId);
      WithoutConsistent(rows, nextId, tokens, doctorId);
      rows := Without(rows, doctorId);
      if !deleted {
        audit.LogWarning(DoctorNotDeleted(doctorId));
      } else {
        audit.LogInfo(DoctorDeleted(doctorId));
      }
    }

    /** Writes the session and modification date of `d` onto the row with d's id. */
    method UpdateToken(d: Doctor)
      requires Valid() && Writable(tokens, rows, d)
      modifies this, audit
      ensures Valid() && nextId == old(nextId)
      ensures rows == AfterUpdateToken(old(rows), d)
      ensures SqlRange(d.modificationDate) ==> audit.auditLogs == old(audit.auditLogs)
      ensures !SqlRange(d.modificationDate) ==> Logged(old(audit.auditLogs), audit.auditLogs, [Error])
    {
      if SqlRange(d.modificationDate) {
        WriteTokenConsistent(rows, nextId, tokens, d);
        rows := WriteToken(rows, d);
      } else {
        audit.LogError(DoctorTokenNotStored(d.matricule));
      }
    }
  }
}
