/**
 * MedicalRecordService: the `MedicalRecords` table. Each record names the
 * doctor who owns it; updates and single-record reads match on the record id
 * AND the owner, so a doctor id can reach only its own records.
 */
module MedicalRecords {
  import opened Base
  import opened Audit

  datatype MedicalRecord = MedicalRecord(
    id: nat,
    doctorId: int,
    patientName: string,
    diagnosis: string,
    treatment: string,
    date: int,
    creationDate: int,
    modificationDate: int)

  /** The table invariant: ids below the counter and strictly increasing. */
  ghost predicate Consistent(rows: seq<MedicalRecord>, nextId: nat) {
    && 1 <= nextId
    && (forall i :: 0 <= i < |rows| ==> rows[i].id < nextId)
    && (forall i, j :: 0 <= i < j < |rows| ==> rows[i].id < rows[j].id)
  }

  /** The scoped match: the record has the id and belongs to the doctor. */
  predicate Owned(r: MedicalRecord, doctorId: int, recordId: int) {
    r.id == recordId && r.doctorId == doctorId
  }

  /** Some record matches the scoped condition: the UPDATE affects a row. */
  predicate OwnedPresent(rows: seq<MedicalRecord>, doctorId: int, recordId: int) {
    exists i :: 0 <= i < |rows| && Owned(rows[i], doctorId, recordId)
  }

  /** GetRecordById: the first record with the id that belongs to the doctor. */
  function ByIdFor(rows: seq<MedicalRecord>, doctorId: int, recordId: int): (r: Option<MedicalRecord>)
    ensures r.Some? <==> OwnedPresent(rows, doctorId, recordId)
    ensures r.Some? ==> r.value in rows && Owned(r.value, doctorId, recordId)
  {
    FirstWhere(rows, (m: MedicalRecord) => Owned(m, doctorId, recordId))
  }

  /** GetRecordsByDoctor: the doctor's records, in table order. */
  function OwnedBy(rows: seq<MedicalRecord>, doctorId: int): (r: seq<MedicalRecord>)
    ensures forall m :: m in r <==> m in rows && m.doctorId == doctorId
  {
    Filter(rows, (m: MedicalRecord) => m.doctorId == doctorId)
  }

  /** The scoped update: diagnosis, treatment, date and modification date of the matching record. */
  function Amend(rows: seq<MedicalRecord>, doctorId: int, recordId: int, diagnosis: string, treatment: string, now: int)
    : seq<MedicalRecord>
  {
    seq(|rows|, i requires 0 <= i < |rows| =>
      if Owned(rows[i], doctorId, recordId)
      then rows[i].(diagnosis := diagnosis, treatment := treatment, date := now, modificationDate := now)
      else rows[i])
  }

  /** The record UpdateRecord returns: built from its arguments, so PatientName is null and CreationDate unset. */
  function Echo(doctorId: int, recordId: nat, diagnosis: string, treatment: string, now: int): MedicalRecord {
    MedicalRecord(recordId, doctorId, "", diagnosis, treatment, now, DateTimeMinValue, now)
  }

  // ---------------------------------------------------------------------------
  // Properties of the table.

  /** An update touches no record of another doctor and no other record of the same doctor. */
  lemma AmendTouchesOnlyOwned(rows: seq<MedicalRecord>, doctorId: int, recordId: int,
                              diagnosis: string, treatment: string, now: int, i: int)
    requires 0 <= i < |rows| && !Owned(rows[i], doctorId, recordId)
    ensures |Amend(rows, doctorId, recordId, diagnosis, treatment, now)| == |rows|
    ensures Amend(rows, doctorId, recordId, diagnosis, treatment, now)[i] == rows[i]
  {
  }

  /** Another doctor's record is never returned by a scoped read. */
  lemma ForeignRecordHidden(rows: seq<MedicalRecord>, nextId: nat, doctorId: int, recordId: int, i: int)
    requires Consistent(rows, nextId)
    requires 0 <= i < |rows| && rows[i].id == recordId && rows[i].doctorId != doctorId
    ensures ByIdFor(rows, doctorId, recordId) == None
  {
    forall j | 0 <= j < |rows|
      ensures !Owned(rows[j], doctorId, recordId)
    {
      if j < i {
        assert rows[j].id < rows[i].id;
      } else if i < j {
        assert rows[i].id < rows[j].id;
      }
    }
  }

  /** Reading a record back after updating it shows the new diagnosis, treatment and dates; the rest is kept. */
  lemma {:induction false} UpdateThenRead(rows: seq<MedicalRecord>, doctorId: int, recordId: int,
                                          diagnosis: string, treatment: string, now: int)
    requires ByIdFor(rows, doctorId, recordId).Some?
    ensures var m := ByIdFor(rows, doctorId, recordId).value;
            ByIdFor(Amend(rows, doctorId, recordId, diagnosis, treatment, now), doctorId, recordId)
              == Some(m.(diagnosis := diagnosis, treatment := treatment, date := now, modificationDate := now))
  {
    var rows' := Amend(rows, doctorId, recordId, diagnosis, treatment, now);
    var p := (m: MedicalRecord) => Owned(m, doctorId, recordId);
    IndexWhereAgrees(rows, p, rows', p);
  }

  /** An update changes no owner, id or creation date, so the table stays consistent. */
  lemma AmendConsistent(rows: seq<MedicalRecord>, nextId: nat, doctorId: int, recordId: int,
                        diagnosis: string, treatment: string, now: int)
    requires Consistent(rows, nextId)
    ensures var rows' := Amend(rows, doctorId, recordId, diagnosis, treatment, now);
            && Consistent(rows', nextId)
            && forall i :: 0 <= i < |rows| ==>
                 rows'[i].id == rows[i].id && rows'[i].doctorId == rows[i].doctorId
                 && rows'[i].patientName == rows[i].patientName && rows'[i].creationDate == rows[i].creationDate
  {
  }

  // ---------------------------------------------------------------------------
  // The service.

  class MedicalRecordService {
    var rows: seq<MedicalRecord>
    var nextId: nat
    const audit: AuditService

    ghost predicate Valid()
      reads this
    {
      Consistent(rows, nextId)
    }

    constructor(audit: AuditService)
      ensures Valid() && rows == [] && nextId == 1 && this.audit == audit
    {
      this.audit := audit;
      rows := [];
      nextId := 1;
    }

    /** Inserts a record for the doctor, dated now, and returns it with its new id. */
    method CreateRecord(doctorId: int, patientName: string, diagnosis: string, treatment: string, now: Instant)
      returns (r: MedicalRecord)
      requires Valid()
      modifies this, audit
      ensures Valid()
      ensures r == MedicalRecord(old(nextId), doctorId, patientName, diagnosis, treatment, now, now, now)
      ensures rows == old(rows) + [r] && nextId == old(nextId) + 1
      ensures Logged(old(audit.auditLogs), audit.auditLogs, [Info])
    {
      var id := nextId;
      r := MedicalRecord(id, doctorId, patientName, diagnosis, treatment, now, now, now);
      rows := rows + [r];
      nextId := nextId + 1;
      audit.LogInfo(RecordCreated(id, doctorId));
    }

    /**
     * Rewrites diagnosis, treatment and dates of the record with the id, only
     * if it belongs to the doctor; otherwise nothing changes and None is returned.
     */
    method UpdateRecord(doctorId: int, recordId: int, diagnosis: string, treatment: string, now: Instant)
      returns (r: Option<MedicalRecord>)
      requires Valid()
      modifies this, audit
      ensures Valid() && nextId == old(nextId)
      ensures rows == Amend(old(rows), doctorId, recordId, diagnosis, treatment, now)
      ensures r.None? <==> !OwnedPresent(old(rows), doctorId, recordId)
      ensures r.None? ==> rows == old(rows) && Logged(old(audit.auditLogs), audit.auditLogs, [Warning])
      ensures r.Some? ==> recordId >= 0 && r.value == Echo(doctorId, recordId, diagnosis, treatment, now)
                          && Logged(old(audit.auditLogs), audit.auditLogs, [Info])
    {
      var affected := OwnedPresent(rows, doctorId, recordId);
      AmendConsistent(rows, nextId, doctorId, recordId, diagnosis, treatment, now);
      rows := Amend(rows, doctorId, recordId, diagnosis, treatment, now);
      if !affected {
        assert rows == old(rows);
        audit.LogWarning(RecordNotUpdated(recordId, doctorId));
        return None;
      }
      r := Some(Echo(doctorId, recordId, diagnosis, treatment, now));
      audit.LogInfo(RecordUpdated(recordId, doctorId));
    }

    /** The `while (reader.Read())` loop shared by the two listings. */
    method Collect(keep: MedicalRecord -> bool) returns (records: seq<MedicalRecord>)
      ensures records == Filter(rows, keep)
    {
      records := [];
      var i := 0;
      while i < |rows|
        invariant 0 <= i <= |rows|
        invariant records == Filter(rows[..i], keep)
      {
        assert rows[..i + 1][..i] == rows[..i];
        if keep(rows[i]) {
          records := records + [rows[i]];
        }
        i := i + 1;
      }
      assert rows[..i] == rows;
    }

    /** The doctor's records, in table order. */
    method GetRecordsByDoctor(doctorId: int) returns (records: seq<MedicalRecord>)
      modifies audit
      ensures records == OwnedBy(rows, doctorId)
      ensures Logged(old(audit.auditLogs), audit.auditLogs, [Info])
    {
      records := Collect((m: MedicalRecord) => m.doctorId == doctorId);
      audit.LogInfo(RecordsOfDoctor(doctorId));
    }

    /** The record with the id, if the doctor owns it. */
    function GetRecordById(doctorId: int, recordId: int): Option<MedicalRecord>
      reads this
    {
      ByIdFor(rows, doctorId, recordId)
    }

    /** Every record of every doctor, in table order. */
    method GetAllMedicalRecords() returns (records: seq<MedicalRecord>)
      modifies audit
      ensures records == rows
      ensures Logged(old(audit.auditLogs), audit.auditLogs, [Info])
    {
      records := Collect((m: MedicalRecord) => true);
      FilterKeepAll(rows, (m: MedicalRecord) => true);
      audit.LogInfo(RecordsListed);
    }
  }
}
