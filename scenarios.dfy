/**
 * Request sequences that show what the handlers guarantee together: a
 * doctor sign-up token works once, and a patient created by a doctor can be
 * prescribed to by that doctor alone and then sees the prescription, and a
 * doctor's message to a linked profile shows up in that patient's history.
 */
module Scenarios {
  import opened Wrappers
  import opened Schema
  import opened Admin
  import opened Prescriptions
  import opened Seqs
  import opened Chat
  import Hex

  /** An Admin issues a token; after one sign-up succeeds with it, a second is refused as InvalidToken. */
  method TokenWorksOnce(db: Database, entropy: seq<Hex.byte>,
                        email: string, otherEmail: string, password: string, phoneNumber: string, salt: nat)
    returns (first: Result<nat>, second: Result<nat>)
    requires db.Valid() && |entropy| == Hex.TokenBytes
    modifies db
    ensures db.Valid()
    ensures first.Ok? && Present(otherEmail) ==> second == Err(InvalidToken)
    ensures first.Ok? <==> AllPresent([email, password, phoneNumber]) && !EmailTaken(old(db.users), email)
  {
    var issued := CreateDoctorSignupToken(db, Admin, entropy);
    var token := issued.value;
    FiveFields("Dr. First", email, password, phoneNumber, token);
    ThreeFields(email, password, phoneNumber);
    first := SignupDoctor(db, "Dr. First", email, password, phoneNumber, token, salt);
    FiveFields("Dr. Second", otherEmail, password, phoneNumber, token);
    second := SignupDoctor(db, "Dr. Second", otherEmail, password, phoneNumber, token, salt + 1);
  }

  lemma FiveFields(a: string, b: string, c: string, d: string, e: string)
    ensures AllPresent([a, b, c, d, e]) <==> Present(a) && Present(b) && Present(c) && Present(d) && Present(e)
  {
    var fields := [a, b, c, d, e];
    assert fields[0] == a && fields[1] == b && fields[2] == c && fields[3] == d && fields[4] == e;
  }

  lemma ThreeFields(a: string, b: string, c: string)
    ensures AllPresent([a, b, c]) <==> Present(a) && Present(b) && Present(c)
  {
    var fields := [a, b, c];
    assert fields[0] == a && fields[1] == b && fields[2] == c;
  }

  /**
   * A doctor creates a patient, who has no prescriptions yet; another doctor
   * is refused when prescribing for the new profile; the creating doctor
   * succeeds, and the patient's own listing then shows exactly that header
   * under the doctor's name.
   */
  method PrescribeForCreatedPatient(db: Database, doctorId: nat, intruderId: nat, fullname: string, email: string,
                                    password: string, phoneNumber: string, salt: nat, entropy: seq<Hex.byte>,
                                    medications: seq<Medication>, now: nat)
    returns (before: Result<seq<PrescriptionSummary>>, intruder: Result<Receipt>, after: Result<seq<PrescriptionSummary>>)
    requires db.Valid() && NotBefore(db.State(), now) && |entropy| == Hex.TokenBytes
    requires HasUser(db.State(), doctorId) && intruderId != doctorId
    requires AllPresent([fullname, email, password, phoneNumber]) && !EmailTaken(db.users, email)
    requires medications != []
    modifies db
    ensures db.Valid()
    ensures before == Ok([])
    ensures intruder == Err(Unauthorized)
    ensures after == Ok([PrescriptionSummary(|old(db.prescriptions)| + 1, now, UserName(old(db.State()), doctorId))])
  {
    ghost var t0 := db.State();
    var patientUser, profileId;
    patientUser, profileId, before := CreatePatientWithNoPrescriptions(db, doctorId, fullname, email, password, phoneNumber, salt, entropy);
    assert UserName(db.State(), doctorId) == UserName(t0, doctorId);
    intruder, after := PrescribeForFreshProfile(db, doctorId, intruderId, profileId, patientUser, medications, now);
  }

  /** The creation step: the new patient's own listing is empty and only the creating doctor is linked to it. */
  method CreatePatientWithNoPrescriptions(db: Database, doctorId: nat, fullname: string, email: string, password: string,
                                          phoneNumber: string, salt: nat, entropy: seq<Hex.byte>)
    returns (patientUser: nat, profileId: nat, before: Result<seq<PrescriptionSummary>>)
    requires db.Valid() && |entropy| == Hex.TokenBytes
    requires AllPresent([fullname, email, password, phoneNumber]) && !EmailTaken(db.users, email)
    modifies db
    ensures db.Valid()
    ensures before == Ok([])
    ensures ProfileOfUser(db.State(), patientUser) == Some(profileId) && NoHeaderFor(db.State(), profileId)
    ensures forall d :: Link(d, profileId) in db.links <==> d == doctorId
    ensures old(db.users) <= db.users && db.prescriptions == old(db.prescriptions) && db.messages == old(db.messages)
  {
    ghost var t0 := db.State();
    profileId := |db.profiles| + 1;
    var created := CreatePatientByDoctor(db, doctorId, fullname, email, password, phoneNumber, salt, entropy);
    patientUser := created.value.userId;
    FreshProfile(t0, db.State(), profileId);
    before := GetPatientOwnPrescriptions(db.State(), patientUser, Patient);
  }

  /** The prescribing step: another doctor is refused, the linked doctor's header is then the patient's whole listing. */
  method PrescribeForFreshProfile(db: Database, doctorId: nat, intruderId: nat, profileId: nat, patientUser: nat,
                                  medications: seq<Medication>, now: nat)
    returns (intruder: Result<Receipt>, after: Result<seq<PrescriptionSummary>>)
    requires db.Valid() && NotBefore(db.State(), now)
    requires HasUser(db.State(), doctorId) && Link(doctorId, profileId) in db.links && Link(intruderId, profileId) !in db.links
    requires ProfileOfUser(db.State(), patientUser) == Some(profileId) && NoHeaderFor(db.State(), profileId)
    requires medications != []
    modifies db
    ensures db.Valid()
    ensures intruder == Err(Unauthorized)
    ensures after == Ok([PrescriptionSummary(|old(db.prescriptions)| + 1, now, UserName(old(db.State()), doctorId))])
  {
    ghost var t1 := db.State();
    intruder := PrescribeMedication(db, intruderId, profileId, Some(medications), now);
    var receipt := PrescribeMedication(db, doctorId, profileId, Some(medications), now);
    OnlyNewHeaderListed(t1, db.State(), profileId);
    after := GetPatientOwnPrescriptions(db.State(), patientUser, Patient);
  }

  /** No stored header names the profile. */
  ghost predicate NoHeaderFor(t: Tables, profileId: nat) {
    forall i :: 0 <= i < |t.prescriptions| ==> t.prescriptions[i].patientId != profileId
  }

  /**
   * A profile added after t0 has no header and no link but those added with
   * it, so its listing is empty.
   */
  lemma FreshProfile(t0: Tables, t1: Tables, profileId: nat)
    requires WellFormed(t0) && profileId == |t0.profiles| + 1
    requires t1.prescriptions == t0.prescriptions
    ensures NoHeaderFor(t1, profileId)
    ensures forall d :: Link(d, profileId) !in t0.links
    ensures PrescriptionsOf(t1, profileId) == []
  {
    var f := SummaryRows(t1, profileId);
    forall i | 0 <= i < |t1.prescriptions| ensures f(t1.prescriptions[i]).None? {
      assert t0.prescriptions[i].patientId <= |t0.profiles|;
    }
    CollectNone(t1.prescriptions, f);
  }

  /** When the only header naming a profile is the last one, the profile's listing is that header alone. */
  lemma OnlyNewHeaderListed(t0: Tables, t: Tables, profileId: nat)
    requires NoHeaderFor(t0, profileId)
    requires |t.prescriptions| == |t0.prescriptions| + 1 && t.prescriptions[..|t0.prescriptions|] == t0.prescriptions
    requires t.prescriptions[|t0.prescriptions|].patientId == profileId && HasUser(t, t.prescriptions[|t0.prescriptions|].doctorId)
    ensures PrescriptionsOf(t, profileId) == [SummaryOf(t, t.prescriptions[|t0.prescriptions|])]
  {
    var f := SummaryRows(t, profileId);
    var header := t.prescriptions[|t0.prescriptions|];
    assert t.prescriptions == t0.prescriptions + [header];
    CollectAppend(t0.prescriptions, [header], f);
    forall i | 0 <= i < |t0.prescriptions| ensures f(t0.prescriptions[i]).None? {
    }
    CollectNone(t0.prescriptions, f);
    assert Collect([header], f) == [SummaryOf(t, header)] by {
      assert [header][1..] == [];
    }
  }

  /**
   * A doctor writes to a linked patient profile; the patient behind that
   * profile then finds the message in the conversation with the doctor,
   * labelled as sent by the Doctor side.
   */
  method MessageReachesPatient(db: Database, doctorId: nat, profileId: nat, text: string, now: nat)
    returns (sent: Result<nat>, history: Result<seq<HistoryEntry>>)
    requires db.Valid() && NotBefore(db.State(), now)
    requires HasUser(db.State(), doctorId) && db.users[doctorId - 1].role == Doctor
    requires Link(doctorId, profileId) in db.links && Present(text)
    modifies db
    ensures db.Valid()
    ensures sent.Ok? && history.Ok?
    ensures exists e :: e in history.value && e.message.id == sent.value && e.message.text == text && e.senderRole == Doctor
  {
    assert 1 <= profileId <= |db.profiles|;
    sent := SendMessage(db, doctorId, Doctor, profileId, text, now);
    var patientUser := db.profiles[profileId - 1].userId;
    SentMessageShown(db.State(), doctorId, profileId, db.messages[|db.messages| - 1]);
    history := GetChatHistory(db.State(), Patient, patientUser, doctorId);
  }

  /** A stored message from a doctor to a linked profile's user is in that patient's history with the doctor. */
  lemma SentMessageShown(t: Tables, doctorId: nat, profileId: nat, m: ChatMessage)
    requires WellFormed(t) && HasUser(t, doctorId) && t.users[doctorId - 1].role == Doctor
    requires 1 <= profileId <= |t.profiles| && Link(doctorId, profileId) in t.links
    requires m in t.messages && m.senderId == doctorId && m.receiverId == t.profiles[profileId - 1].userId
    ensures var history := GetChatHistory(t, Patient, t.profiles[profileId - 1].userId, doctorId);
      history.Ok? && exists e :: e in history.value && e.message == m && e.senderRole == Doctor
  {
    var patientUser := t.profiles[profileId - 1].userId;
    assert ProfileOfUser(t, patientUser) == Some(profileId);
    GetChatHistoryExact(t, Patient, patientUser, doctorId);
    assert IsPatientUser(t, patientUser);
    var history := GetChatHistory(t, Patient, patientUser, doctorId).value;
    var e :| e in history && e.message == m;
    assert e.senderRole == Doctor;
  }
}
