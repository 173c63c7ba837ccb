/**
 * AdminService: the `admin` table of credentials and sessions.
 *
 * A row holds the username, a salted password hash and, while signed in, the
 * session token with its expiry. The table is a sequence in id order, which
 * is the order a reader returns rows in; `nextId` is the identity counter.
 */
module Admins {
  import opened Base
  import opened Audit
  import opened Tokens
  import opened Passwords

  datatype Admin = Admin(
    id: nat,
    username: string,
    passwordHash: string,
    salt: string,
    token: Option<Token>,
    creationDate: int,
    modificationDate: int)

  predicate HoldsToken(a: Admin, v: Jwt) {
    a.token.Some? && a.token.value.value == v
  }

  /** The token value signed for admin `id`: Name claim = the id in decimal, Role claim = "Admin". */
  function AdminToken(ts: TokenService, id: nat, expiration: int): Jwt {
    ts.GenerateToken(Decimal(id), AdminRole, expiration)
  }

  /** The session Authenticate issues at `now`: valid for one hour. */
  function IssuedToken(ts: TokenService, id: nat, now: int): Token {
    Token(AdminToken(ts, id, now + OneHour), now + OneHour)
  }

  /** A stored session was issued to the row that holds it. */
  predicate SessionBound(ts: TokenService, a: Admin) {
    a.token.Some? ==> a.token.value.value == AdminToken(ts, a.id, a.token.value.expirationDate)
  }

  /** The table invariant: ids below the counter and increasing, usernames unique, dates storable, sessions bound. */
  ghost predicate Consistent(rows: seq<Admin>, nextId: nat, ts: TokenService) {
    && 1 <= nextId
    && (forall i :: 0 <= i < |rows| ==> rows[i].id < nextId)
    && (forall i, j :: 0 <= i < j < |rows| ==> rows[i].id < rows[j].id)
    && (forall i, j :: 0 <= i < j < |rows| ==> rows[i].username != rows[j].username)
    && (forall i :: 0 <= i < |rows| ==> SqlRange(rows[i].creationDate) && SqlRange(rows[i].modificationDate))
    && (forall i :: 0 <= i < |rows| ==> SessionBound(ts, rows[i]))
  }

  // ---------------------------------------------------------------------------
  // Queries over the table.

  /** Some row already has the username: the registration count query is positive. */
  predicate UsernameTaken(rows: seq<Admin>, username: string) {
    exists i :: 0 <= i < |rows| && rows[i].username == username
  }

  function ByUsername(rows: seq<Admin>, username: string): Option<Admin> {
    FirstWhere(rows, (a: Admin) => a.username == username)
  }

  /** The first row holding the token value, if its stored expiry is strictly after now (GetAdminByToken). */
  function ByToken(rows: seq<Admin>, tokenValue: Jwt, now: int): (r: Option<Admin>)
    ensures r.Some? ==> r.value in rows && HoldsToken(r.value, tokenValue)
                        && r.value.token.value.expirationDate > now
    ensures (forall i :: 0 <= i < |rows| ==> !HoldsToken(rows[i], tokenValue)) ==> r.None?
  {
    match IndexWhere(rows, (a: Admin) => HoldsToken(a, tokenValue))
    case None => None
    case Some(k) => if rows[k].token.value.expirationDate > now then Some(rows[k]) else None
  }

  /** Authentication succeeds exactly when the username has a row whose hash matches the recomputed one. */
  predicate PasswordMatches(digest: string -> string, rows: seq<Admin>, username: string, password: string) {
    var found := ByUsername(rows, username);
    found.Some? && HashPassword(digest, password, found.value.salt) == found.value.passwordHash
  }

  /** What GetAllAdmins returns for a row: `reader["token"] as Token` is always null. */
  function Listed(a: Admin): Admin {
    a.(token := None)
  }

  // ---------------------------------------------------------------------------
  // Writes.

  /** The session write: token, its expiry and the modification date of the row with a's id. */
  function WriteToken(rows: seq<Admin>, a: Admin): seq<Admin> {
    seq(|rows|, i requires 0 <= i < |rows| =>
      if rows[i].id == a.id then rows[i].(token := a.token, modificationDate := a.modificationDate)
      else rows[i])
  }

  /** The table after UpdateToken(a): a modification date SqlClient cannot send makes the command throw. */
  function AfterUpdateToken(rows: seq<Admin>, a: Admin): seq<Admin> {
    if SqlRange(a.modificationDate) then WriteToken(rows, a) else rows
  }

  /** The admin object Authenticate builds from the row: id, username, hash and salt only. */
  function Loaded(a: Admin): Admin {
    Admin(a.id, a.username, a.passwordHash, a.salt, None, DateTimeMinValue, DateTimeMinValue)
  }

  /** As written, Authenticate only sets the token, so UpdateToken sends the unloaded ModificationDate. */
  function SignedInAsWritten(a: Admin, t: Token): Admin {
    Loaded(a).(token := Some(t))
  }

  /** Corrected sign-in, as DoctorService does it: the modification date becomes now. */
  function SignedIn(a: Admin, t: Token, now: Instant): Admin {
    Loaded(a).(token := Some(t), modificationDate := now)
  }

  // ---------------------------------------------------------------------------
  // Properties of the table.

  /** Two rows never hold the same token value: each value names its row's id. */
  lemma HolderUnique(rows: seq<Admin>, nextId: nat, ts: TokenService, v: Jwt, i: int, j: int)
    requires Consistent(rows, nextId, ts)
    requires 0 <= i < |rows| && 0 <= j < |rows|
    requires HoldsToken(rows[i], v) && HoldsToken(rows[j], v)
    ensures i == j
  {
    assert AdminToken(ts, rows[i].id, rows[i].token.value.expirationDate) == v;
    assert AdminToken(ts, rows[j].id, rows[j].token.value.expirationDate) == v;
    DecimalInjective(rows[i].id, rows[j].id);
  }

  /** The stored-session lookup finds the one holder of a token value, exactly while its expiry lies after now. */
  lemma ByTokenFindsHolder(rows: seq<Admin>, nextId: nat, ts: TokenService, v: Jwt, now: int, i: int)
    requires Consistent(rows, nextId, ts)
    requires 0 <= i < |rows| && HoldsToken(rows[i], v)
    ensures ByToken(rows, v, now) == if rows[i].token.value.expirationDate > now then Some(rows[i]) else None
  {
    var k := IndexWhere(rows, (a: Admin) => HoldsToken(a, v));
    assert k.Some?;
    HolderUnique(rows, nextId, ts, v, k.value, i);
  }

  /** Writing a bound session with a storable date keeps the table consistent. */
  lemma WriteTokenConsistent(rows: seq<Admin>, nextId: nat, ts: TokenService, a: Admin)
    requires Consistent(rows, nextId, ts)
    requires SessionBound(ts, a) && SqlRange(a.modificationDate)
    ensures Consistent(WriteToken(rows, a), nextId, ts)
  {
    var rows' := WriteToken(rows, a);
    assert forall i :: 0 <= i < |rows| ==> rows'[i].id == rows[i].id && rows'[i].username == rows[i].username;
  }

  /** After logout clears the row holding a token value, that value resolves to nobody, at any time. */
  lemma LogoutRevokes(rows: seq<Admin>, nextId: nat, ts: TokenService, a: Admin, v: Jwt, now: int, i: int)
    requires Consistent(rows, nextId, ts)
    requires a.token.None? && SqlRange(a.modificationDate)
    requires 0 <= i < |rows| && rows[i].id == a.id && HoldsToken(rows[i], v)
    ensures ByToken(AfterUpdateToken(rows, a), v, now) == None
  {
    var rows' := WriteToken(rows, a);
    forall j | 0 <= j < |rows'|
      ensures !HoldsToken(rows'[j], v)
    {
      if rows[j].id != a.id && HoldsToken(rows[j], v) {
        HolderUnique(rows, nextId, ts, v, i, j);
      }
    }
  }

  /** Corrected sign-in: the issued token resolves to the signed-in row for the hour it is valid. */
  lemma SignInThenLookup(rows: seq<Admin>, nextId: nat, ts: TokenService, i: int, now: Instant, later: int)
    requires Consistent(rows, nextId, ts)
    requires 0 <= i < |rows| && later < now + OneHour
    ensures var t := IssuedToken(ts, rows[i].id, now);
            var rows' := AfterUpdateToken(rows, SignedIn(rows[i], t, now));
            && Consistent(rows', nextId, ts)
            && rows'[i] == rows[i].(token := Some(t), modificationDate := now)
            && ByToken(rows', t.value, later) == Some(rows'[i])
  {
    var t := IssuedToken(ts, rows[i].id, now);
    var a := SignedIn(rows[i], t, now);
    WriteTokenConsistent(rows, nextId, ts, a);
    var rows' := WriteToken(rows, a);
    ByTokenFindsHolder(rows', nextId, ts, t.value, later, i);
  }

  /**
   * As written, sign-in never stores its session: UpdateToken throws on the
   * unloaded modification date, so the returned token resolves to nobody.
   */
  lemma AsWrittenSignInIsLost(rows: seq<Admin>, nextId: nat, ts: TokenService, i: int, now: Instant, later: int)
    requires Consistent(rows, nextId, ts)
    requires 0 <= i < |rows|
    requires !HoldsToken(rows[i], IssuedToken(ts, rows[i].id, now).value)
    ensures var t := IssuedToken(ts, rows[i].id, now);
            && AfterUpdateToken(rows, SignedInAsWritten(rows[i], t)) == rows
            && ByToken(rows, t.value, later) == None
  {
    var t := IssuedToken(ts, rows[i].id, now);
    forall j | 0 <= j < |rows| && j != i
      ensures !HoldsToken(rows[j], t.value)
    {
      assert rows[j].id != rows[i].id by {
        if i < j { assert rows[i].id < rows[j].id; }
        if j < i { assert rows[j].id < rows[i].id; }
      }
      DecimalDistinct(rows[j].id, rows[i].id);
    }
  }

  // ---------------------------------------------------------------------------
  // The service.

  class AdminService {
    var rows: seq<Admin>
    var nextId: nat
    const audit: AuditService
    const tokens: TokenService
    /** Base64 . SHA-256 . UTF-8, used by HashPassword. */
    const digest: string -> string

    ghost predicate Valid()
      reads this
    {
      Consistent(rows, nextId, tokens)
    }

    constructor(audit: AuditService, tokens: TokenService, digest: string -> string)
      ensures Valid() && rows == [] && nextId == 1
      ensures this.audit == audit && this.tokens == tokens && this.digest == digest
    {
      this.audit := audit;
      this.tokens := tokens;
      this.digest := digest;
      rows := [];
      nextId := 1;
    }

    /** Register with the freshly generated `salt`: a taken username is refused and nothing is inserted. */
    method Register(username: string, password: string, salt: string, now: Instant) returns (r: Option<Admin>)
      requires Valid()
      modifies this, audit
      ensures Valid()
      ensures r.None? <==> UsernameTaken(old(rows), username)
      ensures r.None? ==> rows == old(rows) && nextId == old(nextId)
                          && Logged(old(audit.auditLogs), audit.auditLogs, [Error])
      ensures r.Some? ==>
                && r.value == Admin(old(nextId), username, HashPassword(digest, password, salt), salt, None, now, now)
                && rows == old(rows) + [r.value] && nextId == old(nextId) + 1
                && Logged(old(audit.auditLogs), audit.auditLogs, [Info])
    {
      if UsernameTaken(rows, username) {
        audit.LogError(AdminUsernameTaken(username));
        return None;
      }
      var passwordHash := HashPassword(digest, password, salt);
      var id := nextId;
      var admin := Admin(id, username, passwordHash, salt, None, now, now);
      rows := rows + [admin];
      nextId := nextId + 1;
      audit.LogInfo(AdminRegistered(username, id));
      r := Some(admin);
    }

    /**
     * Sign in: on a matching hash a one-hour token is issued and written onto
     * the admin's row only. Unknown username and wrong password fail alike.
     */
    method Authenticate(username: string, password: string, now: Instant) returns (r: Option<Admin>)
      requires Valid()
      modifies this, audit
      ensures Valid() && nextId == old(nextId)
      ensures r.Some? <==> PasswordMatches(digest, old(rows), username, password)
      ensures r.None? ==> rows == old(rows) && Logged(old(audit.auditLogs), audit.auditLogs, [Warning])
      ensures r.Some? ==>
                var a := ByUsername(old(rows), username).value;
                && r.value == SignedIn(a, IssuedToken(tokens, a.id, now), now)
                && rows == WriteToken(old(rows), r.value)
                && Logged(old(audit.auditLogs), audit.auditLogs, [Info])
    {
      var found := ByUsername(rows, username);
      if found.Some? && HashPassword(digest, password, found.value.salt) == found.value.passwordHash {
        var admin := Loaded(found.value);
        var token := tokens.GenerateToken(Decimal(admin.id), AdminRole, now + OneHour);
        admin := admin.(token := Some(Token(token, now + OneHour)));
        // The source leaves ModificationDate unloaded here; see SignedInAsWritten.
        admin := admin.(modificationDate := now);
        UpdateToken(admin);
        audit.LogInfo(AdminLoggedIn(username, admin.id));
        r := Some(admin);
      } else {
        audit.LogWarning(AdminLoginFailed(username));
        r := None;
      }
    }

    /** Clears the session of the given admin's row; a missing admin is a no-op. */
    method Logout(admin: Option<Admin>)
      requires Valid()
      modifies this, audit
      ensures Valid() && nextId == old(nextId)
      ensures admin.None? ==> rows == old(rows) && audit.auditLogs == old(audit.auditLogs)
      ensures admin.Some? ==>
                && rows == AfterUpdateToken(old(rows), admin.value.(token := None))
                && Logged(old(audit.auditLogs), audit.auditLogs,
                          if SqlRange(admin.value.modificationDate) then [Info] else [Error, Info])
    {
      if admin.Some? {
        var a := admin.value.(token := None);
        ghost var logs0 := audit.auditLogs;
        UpdateToken(a);
        ghost var logs1 := audit.auditLogs;
        audit.LogInfo(AdminLoggedOut(a.username, a.id));
        if !SqlRange(a.modificationDate) {
          LoggedTwice(logs0, logs1, audit.auditLogs, [Error], [Info]);
        }
      }
    }

    /** The live admin session a token value resolves to (GetAdminByToken). */
    function GetAdminByToken(tokenValue: Jwt, now: int): Option<Admin>
      reads this
    {
      ByToken(rows, tokenValue, now)
    }

    /** Every row, in table order, each without its session. */
    method GetAllAdmins() returns (admins: seq<Admin>)
      modifies audit
      ensures admins == Project(rows, Listed)
      ensures Logged(old(audit.auditLogs), audit.auditLogs, [Info])
    {
      admins := [];
      var i := 0;
      while i < |rows|
        invariant 0 <= i <= |rows|
        invariant admins == Project(rows[..i], Listed)
      {
        assert Project(rows[..i + 1], Listed) == Project(rows[..i], Listed) + [Listed(rows[i])];
        admins := admins + [Listed(rows[i])];
        i := i + 1;
      }
      assert rows[..i] == rows;
      audit.LogInfo(AdminsListed);
    }

    /** Writes the session and modification date of `a` onto the row with a's id. */
    method UpdateToken(a: Admin)
      requires Valid() && SessionBound(tokens, a)
      modifies this, audit
      ensures Valid() && nextId == old(nextId)
      ensures rows == AfterUpdateToken(old(rows), a)
      ensures SqlRange(a.modificationDate) ==> audit.auditLogs == old(audit.auditLogs)
      ensures !SqlRange(a.modificationDate) ==> Logged(old(audit.auditLogs), audit.auditLogs, [Error])
    {
      if SqlRange(a.modificationDate) {
        WriteTokenConsistent(rows, nextId, tokens, a);
        rows := WriteToken(rows, a);
      } else {
        audit.LogError(AdminTokenNotStored(a.username));
      }
    }
  }
}
