/**
 * The prescription ledger (controller/patient.js): a doctor writes a header
 * and its medication lines for a linked patient profile; doctors and
 * patients read headers and details under role-dependent rules.
 */
module Prescriptions {
  import opened Wrappers
  import opened Seqs
  import opened Schema

  /** What a successful prescription reports: the header id and how many lines were stored. */
  datatype Receipt = Receipt(prescriptionId: nat, medicationsAdded: nat)

  /** The batch of line rows for one header, one per medication, in the request's order. */
  function LinesFor(prescriptionId: nat, medications: seq<Medication>): seq<MedicationLine> {
    seq(|medications|, i requires 0 <= i < |medications| => MedicationLine(prescriptionId, medications[i]))
  }

  function LineOf(prescriptionId: nat): MedicationLine -> Option<Medication> {
    (line: MedicationLine) => if line.prescriptionId == prescriptionId then Some(line.medication) else None
  }

  /** The medications stored for one header, in table order. */
  function MedicationsOf(t: Tables, prescriptionId: nat): seq<Medication> {
    Collect(t.medicationLines, LineOf(prescriptionId))
  }

  /** The request names a patient and a non-empty array of medications. */
  predicate ValidRequest(patientId: nat, medications: Option<seq<Medication>>) {
    patientId != 0 && medications.Some? && medications.value != []
  }

  /**
   * Writes one header for (doctor, patient) and one line per medication,
   * only when the doctor is linked to the patient profile; otherwise nothing
   * is written. The caller's role is not checked, only the link.
   */
  method PrescribeMedication(db: Database, doctorId: nat, patientId: nat, medications: Option<seq<Medication>>, now: nat)
    returns (r: Result<Receipt>)
    requires db.Valid() && NotBefore(db.State(), now)
    modifies db
    ensures db.Valid()
    ensures !ValidRequest(patientId, medications) ==> r == Err(InvalidInput)
    ensures ValidRequest(patientId, medications) && Link(doctorId, patientId) !in old(db.links) ==> r == Err(Unauthorized)
    ensures r.Ok? <==> ValidRequest(patientId, medications) && Link(doctorId, patientId) in old(db.links)
    ensures r.Err? ==> unchanged(db)
    ensures r.Ok? ==>
      && r.value == Receipt(|old(db.prescriptions)| + 1, |medications.value|)
      && db.State() == old(db.State()).(
           prescriptions := old(db.prescriptions) + [Prescription(r.value.prescriptionId, doctorId, patientId, now)],
           medicationLines := old(db.medicationLines) + LinesFor(r.value.prescriptionId, medications.value))
    ensures r.Ok? ==> MedicationsOf(db.State(), r.value.prescriptionId) == medications.value
  {
    if patientId == 0 || medications.None? || |medications.value| == 0 {
      return Err(InvalidInput);
    }
    if Link(doctorId, patientId) !in db.links {
      return Err(Unauthorized);
    }
    var id := |db.prescriptions| + 1;
    var header := Prescription(id, doctorId, patientId, now);
    var lines := LinesFor(id, medications.value);
    ghost var t0 := db.State();
    NewPrescriptionKeepsWellFormed(t0, header, medications.value);
    MedicationsReadBack(t0, id, medications.value);
    db.prescriptions, db.medicationLines := db.prescriptions + [header], db.medicationLines + lines;
    r := Ok(Receipt(id, |lines|));
  }

  lemma NewPrescriptionKeepsWellFormed(t: Tables, header: Prescription, medications: seq<Medication>)
    requires WellFormed(t) && NotBefore(t, header.createdAt)
    requires header.id == |t.prescriptions| + 1 && Link(header.doctorId, header.patientId) in t.links
    ensures WellFormed(t.(prescriptions := t.prescriptions + [header],
                          medicationLines := t.medicationLines + LinesFor(header.id, medications)))
  {
    var t' := t.(prescriptions := t.prescriptions + [header],
                 medicationLines := t.medicationLines + LinesFor(header.id, medications));
    forall i, j | 0 <= i < j < |t'.prescriptions| ensures t'.prescriptions[i].createdAt <= t'.prescriptions[j].createdAt {
      if j == |t.prescriptions| {
        assert t.prescriptions[i] in t.prescriptions;
      }
    }
    forall line | line in t'.medicationLines ensures 1 <= line.prescriptionId <= |t'.prescriptions| {
      if line !in t.medicationLines {
        var i :| 0 <= i < |LinesFor(header.id, medications)| && LinesFor(header.id, medications)[i] == line;
      }
    }
  }

  /** The lines written for a new header read back as exactly the prescribed medications, in order. */
  lemma MedicationsReadBack(t: Tables, id: nat, medications: seq<Medication>)
    requires WellFormed(t) && id == |t.prescriptions| + 1
    ensures MedicationsOf(t.(medicationLines := t.medicationLines + LinesFor(id, medications)), id) == medications
  {
    var f := LineOf(id);
    var added := LinesFor(id, medications);
    CollectAppend(t.medicationLines, added, f);
    forall i | 0 <= i < |t.medicationLines| ensures f(t.medicationLines[i]).None? {
      assert t.medicationLines[i] in t.medicationLines;
    }
    CollectNone(t.medicationLines, f);
    CollectAll(added, f, (line: MedicationLine) => line.medication);
  }

  /** One header in a listing. */
  datatype PrescriptionSummary = PrescriptionSummary(id: nat, createdAt: nat, doctorName: string)

  /** A header of the patient whose prescriber's user row exists (the join with users). */
  predicate Listed(t: Tables, patientId: nat, p: Prescription) {
    p.patientId == patientId && HasUser(t, p.doctorId)
  }

  function SummaryOf(t: Tables, p: Prescription): PrescriptionSummary
    requires HasUser(t, p.doctorId)
  {
    PrescriptionSummary(p.id, p.createdAt, UserName(t, p.doctorId))
  }

  function SummaryRows(t: Tables, patientId: nat): Prescription -> Option<PrescriptionSummary> {
    (p: Prescription) => if Listed(t, patientId, p) then Some(SummaryOf(t, p)) else None
  }

  /** The patient's headers, newest first. */
  function PrescriptionsOf(t: Tables, patientId: nat): seq<PrescriptionSummary> {
    Reverse(Collect(t.prescriptions, SummaryRows(t, patientId)))
  }

  /** The listing holds exactly the summaries of the patient's headers whose prescriber exists. */
  lemma PrescriptionsOfExact(t: Tables, patientId: nat)
    ensures forall s :: s in PrescriptionsOf(t, patientId) <==>
      exists i :: 0 <= i < |t.prescriptions| && Listed(t, patientId, t.prescriptions[i]) && s == SummaryOf(t, t.prescriptions[i])
  {
    var f := SummaryRows(t, patientId);
    var rows := Collect(t.prescriptions, f);
    CollectMembership(t.prescriptions, f);
    ReverseSameElements(rows);
    forall s | exists i :: 0 <= i < |t.prescriptions| && Listed(t, patientId, t.prescriptions[i]) && s == SummaryOf(t, t.prescriptions[i])
      ensures s in rows
    {
      var i :| 0 <= i < |t.prescriptions| && Listed(t, patientId, t.prescriptions[i]) && s == SummaryOf(t, t.prescriptions[i]);
      assert f(t.prescriptions[i]) == Some(s);
    }
  }

  /** Since headers are stored in time order, the listing runs from newest to oldest. */
  lemma PrescriptionsNewestFirst(t: Tables, patientId: nat)
    requires WellFormed(t)
    ensures var list := PrescriptionsOf(t, patientId);
      forall i, j :: 0 <= i < j < |list| ==> list[i].createdAt >= list[j].createdAt
  {
    var f := SummaryRows(t, patientId);
    var rows := Collect(t.prescriptions, f);
    CollectAscending(t.prescriptions, f, (p: Prescription) => p.createdAt, (s: PrescriptionSummary) => s.createdAt);
    var list := Reverse(rows);
    forall i, j | 0 <= i < j < |list| ensures list[i].createdAt >= list[j].createdAt {
      assert list[i] == rows[|rows| - 1 - i] && list[j] == rows[|rows| - 1 - j];
    }
  }

  /** A linked doctor reads the patient's headers, newest first. */
  function GetPatientPrescriptions(t: Tables, doctorId: nat, patientId: nat): (r: Result<seq<PrescriptionSummary>>)
    ensures r.Ok? <==> Link(doctorId, patientId) in t.links
    ensures r.Err? ==> r.failure == Unauthorized
    ensures r.Ok? ==> r.value == PrescriptionsOf(t, patientId)
  {
    if Link(doctorId, patientId) in t.links then Ok(PrescriptionsOf(t, patientId)) else Err(Unauthorized)
  }

  /** Who may see a header: its prescriber or a linked doctor, or the patient whose profile it names. */
  predicate MayView(t: Tables, callerId: nat, role: Role, p: Prescription) {
    match role
    case Doctor => p.doctorId == callerId || Link(callerId, p.patientId) in t.links
    case Patient => ProfileOfUser(t, callerId) == Some(p.patientId)
    case Admin => false
  }

  datatype PrescriptionDetails = PrescriptionDetails(id: nat, createdAt: nat, doctorName: string, medications: seq<Medication>)

  /**
   * A header with its medications, for a caller who may view it: refused
   * when the header is missing or not viewable, NotFound when it has no line
   * (or no prescriber row) to join.
   */
  function GetPrescriptionDetails(t: Tables, callerId: nat, role: Role, prescriptionId: nat): (r: Result<PrescriptionDetails>)
    ensures role == Admin || PrescriptionById(t, prescriptionId).None? ==> r == Err(Unauthorized)
    ensures PrescriptionById(t, prescriptionId).Some? ==>
      (r != Err(Unauthorized) <==> MayView(t, callerId, role, PrescriptionById(t, prescriptionId).value))
    ensures r.Ok? ==>
      && PrescriptionById(t, prescriptionId).Some?
      && var p := PrescriptionById(t, prescriptionId).value;
         HasUser(t, p.doctorId) && r.value == PrescriptionDetails(p.id, p.createdAt, UserName(t, p.doctorId), MedicationsOf(t, prescriptionId))
    ensures r.Ok? ==> r.value.medications != []
    ensures r.Err? ==> r.failure == Unauthorized || r.failure == NotFound
    ensures r != Err(Unauthorized) && MedicationsOf(t, prescriptionId) == [] ==> r == Err(NotFound)
    ensures WellFormed(t) && role == Patient && r != Err(Unauthorized) ==>
      var p := t.prescriptions[prescriptionId - 1];
      1 <= p.patientId <= |t.profiles| && t.profiles[p.patientId - 1].userId == callerId
  {
    if role == Admin then Err(Unauthorized)
    else
      match PrescriptionById(t, prescriptionId)
      case None => Err(Unauthorized)
      case Some(p) =>
        if !MayView(t, callerId, role, p) then Err(Unauthorized)
        else
          var medications := MedicationsOf(t, prescriptionId);
          if !HasUser(t, p.doctorId) || medications == [] then Err(NotFound)
          else Ok(PrescriptionDetails(p.id, p.createdAt, UserName(t, p.doctorId), medications))
  }

  /** A patient reads their own profile's headers, newest first; an empty list is not an error. */
  function GetPatientOwnPrescriptions(t: Tables, callerId: nat, role: Role): (r: Result<seq<PrescriptionSummary>>)
    ensures role != Patient ==> r == Err(Unauthorized)
    ensures role == Patient && ProfileOfUser(t, callerId).None? ==> r == Err(NotFound)
    ensures r.Ok? <==> role == Patient && ProfileOfUser(t, callerId).Some?
    ensures r.Ok? ==> r.value == PrescriptionsOf(t, ProfileOfUser(t, callerId).value)
  {
    if role != Patient then Err(Unauthorized)
    else
      match ProfileOfUser(t, callerId)
      case None => Err(NotFound)
      case Some(patientId) => Ok(PrescriptionsOf(t, patientId))
  }

  /** Every header a patient lists as their own names a profile that belongs to them. */
  lemma OwnPrescriptionsAreOwn(t: Tables, callerId: nat)
    requires WellFormed(t)
    requires GetPatientOwnPrescriptions(t, callerId, Patient).Ok?
    ensures forall s :: s in GetPatientOwnPrescriptions(t, callerId, Patient).value ==>
      exists i :: 0 <= i < |t.prescriptions| && t.prescriptions[i].id == s.id &&
        t.profiles[t.prescriptions[i].patientId - 1].userId == callerId
  {
    var patientId := ProfileOfUser(t, callerId).value;
    PrescriptionsOfExact(t, patientId);
  }
}
