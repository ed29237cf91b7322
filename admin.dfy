/**
 * Doctor sign-up tokens, doctor sign-up, patients created by a doctor, and a
 * doctor's list of linked patients (controller/admincontroller.js).
 */
module Admin {
  import opened Wrappers
  import opened Seqs
  import opened Schema
  import Hex

  /** Some row not yet marked used holds a token equal to the given one under the collation. */
  predicate Redeemable(tokens: seq<SignupToken>, token: string) {
    exists i :: 0 <= i < |tokens| && SameKey(tokens[i].token, token) && !tokens[i].isUsed
  }

  /** Marks every row whose token equals the given one under the collation as used and leaves the others alone. */
  function MarkUsed(tokens: seq<SignupToken>, token: string): (r: seq<SignupToken>)
    ensures |r| == |tokens|
    ensures forall i :: 0 <= i < |r| ==> r[i].token == tokens[i].token
    ensures forall other :: Redeemable(r, other) <==> Redeemable(tokens, other) && !SameKey(other, token)
  {
    var r := seq(|tokens|, i requires 0 <= i < |tokens| =>
      if SameKey(tokens[i].token, token) then tokens[i].(isUsed := true) else tokens[i]);
    assert forall other :: Redeemable(tokens, other) && !SameKey(other, token) ==> Redeemable(r, other) by {
      forall other | Redeemable(tokens, other) && !SameKey(other, token) ensures Redeemable(r, other) {
        var i :| 0 <= i < |tokens| && SameKey(tokens[i].token, other) && !tokens[i].isUsed;
        assert r[i] == tokens[i];
      }
    }
    r
  }

  /** Admins alone issue tokens; a new token starts unused. */
  method CreateDoctorSignupToken(db: Database, callerRole: Role, entropy: seq<Hex.byte>) returns (r: Result<string>)
    requires db.Valid() && |entropy| == Hex.TokenBytes
    modifies db
    ensures db.Valid()
    ensures r.Ok? <==> callerRole == Admin
    ensures r.Err? ==> r.failure == Unauthorized && unchanged(db)
    ensures r.Ok? ==>
      && r.value == Hex.Token(entropy)
      && db.State() == old(db.State()).(signupTokens := old(db.signupTokens) + [SignupToken(r.value, false)])
    ensures r.Ok? ==> Redeemable(db.signupTokens, r.value)
  {
    if callerRole != Admin {
      return Err(Unauthorized);
    }
    var token := Hex.Token(entropy);
    db.signupTokens := db.signupTokens + [SignupToken(token, false)];
    assert db.signupTokens[|db.signupTokens| - 1] == SignupToken(token, false);
    r := Ok(token);
  }

  predicate AllPresent(fields: seq<string>) {
    forall i :: 0 <= i < |fields| ==> Present(fields[i])
  }

  /**
   * Doctor sign-up: every field given, the token unused, the email free; then
   * one Doctor user is stored and the token is marked used. A refused request
   * changes nothing, so a duplicate email leaves the token unused.
   */
  method SignupDoctor(db: Database, fullname: string, email: string, password: string, phoneNumber: string,
                      token: string, salt: nat)
    returns (r: Result<nat>)
    requires db.Valid()
    modifies db
    ensures db.Valid()
    ensures !AllPresent([fullname, email, password, phoneNumber, token]) ==> r == Err(InvalidInput)
    ensures AllPresent([fullname, email, password, phoneNumber, token]) && !Redeemable(old(db.signupTokens), token) ==>
      r == Err(InvalidToken)
    ensures r.Ok? <==>
      AllPresent([fullname, email, password, phoneNumber, token]) && Redeemable(old(db.signupTokens), token) &&
      !EmailTaken(old(db.users), email)
    ensures r.Err? ==> unchanged(db)
    ensures r.Ok? ==>
      && r.value == |old(db.users)| + 1
      && db.State() == old(db.State()).(
           users := old(db.users) + [User(r.value, fullname, email, Hash(password, salt), phoneNumber, Doctor)],
           signupTokens := MarkUsed(old(db.signupTokens), token))
    ensures r.Ok? ==> !Redeemable(db.signupTokens, token)
    ensures r.Err? && AllPresent([fullname, email, password, phoneNumber, token]) && Redeemable(old(db.signupTokens), token) ==>
      r.failure == Duplicate
  {
    if !AllPresent([fullname, email, password, phoneNumber, token]) {
      return Err(InvalidInput);
    }
    if !Redeemable(db.signupTokens, token) {
      return Err(InvalidToken);
    }
    if EmailTaken(db.users, email) {
      return Err(Duplicate);
    }
    var user := User(|db.users| + 1, fullname, email, Hash(password, salt), phoneNumber, Doctor);
    AddUser(db.users, user);
    db.users := db.users + [user];
    db.signupTokens := MarkUsed(db.signupTokens, token);
    r := Ok(user.id);
  }

  /** What a doctor gets back after creating a patient: the new user id and patient token. */
  datatype NewPatient = NewPatient(userId: nat, patientToken: string)

  /**
   * A doctor creates a patient: one Patient user, one profile holding a
   * freshly generated token, and the link from the calling doctor to that
   * profile. The caller's role is not checked.
   */
  method CreatePatientByDoctor(db: Database, doctorId: nat, fullname: string, email: string, password: string,
                               phoneNumber: string, salt: nat, entropy: seq<Hex.byte>)
    returns (r: Result<NewPatient>)
    requires db.Valid() && |entropy| == Hex.TokenBytes
    modifies db
    ensures db.Valid()
    ensures !AllPresent([fullname, email, password, phoneNumber]) ==> r == Err(InvalidInput)
    ensures r.Ok? <==> AllPresent([fullname, email, password, phoneNumber]) && !EmailTaken(old(db.users), email)
    ensures r.Err? ==> unchanged(db)
    ensures r.Err? && AllPresent([fullname, email, password, phoneNumber]) ==> r.failure == Duplicate
    ensures r.Ok? ==>
      var profileId := |old(db.profiles)| + 1;
      && r.value == NewPatient(|old(db.users)| + 1, Hex.Token(entropy))
      && db.State() == old(db.State()).(
           users := old(db.users) + [User(r.value.userId, fullname, email, Hash(password, salt), phoneNumber, Patient)],
           profiles := old(db.profiles) + [PatientProfile(profileId, r.value.userId, r.value.patientToken)],
           links := old(db.links) + {Link(doctorId, profileId)})
    ensures r.Ok? ==> ProfileOfUser(db.State(), r.value.userId) == Some(|old(db.profiles)| + 1)
  {
    if !AllPresent([fullname, email, password, phoneNumber]) {
      return Err(InvalidInput);
    }
    if EmailTaken(db.users, email) {
      return Err(Duplicate);
    }
    var user := User(|db.users| + 1, fullname, email, Hash(password, salt), phoneNumber, Patient);
    var token := Hex.Token(entropy);
    var profile := PatientProfile(|db.profiles| + 1, user.id, token);
    NewProfileKeepsWellFormed(db.State(), user, profile, doctorId);
    db.users, db.profiles, db.links := db.users + [user], db.profiles + [profile], db.links + {Link(doctorId, profile.id)};
    r := Ok(NewPatient(user.id, token));
  }

  lemma NewProfileKeepsWellFormed(t: Tables, user: User, profile: PatientProfile, doctorId: nat)
    requires WellFormed(t)
    requires user.id == |t.users| + 1 && !EmailTaken(t.users, user.email) && user.role == Patient
    requires profile == PatientProfile(|t.profiles| + 1, user.id, profile.token)
    ensures var t' := t.(users := t.users + [user], profiles := t.profiles + [profile], links := t.links + {Link(doctorId, profile.id)});
      WellFormed(t') && ProfileOfUser(t', user.id) == Some(profile.id)
  {
    AddUser(t.users, user);
    var t' := t.(users := t.users + [user], profiles := t.profiles + [profile], links := t.links + {Link(doctorId, profile.id)});
    forall k | 0 <= k < |t'.profiles| ensures t'.profiles[k].id == k + 1 && IsPatientUser(t', t'.profiles[k].userId) {
      if k < |t.profiles| {
        assert t'.profiles[k] == t.profiles[k];
        assert IsPatientUser(t, t.profiles[k].userId);
      }
    }
    forall k, m | 0 <= k < m < |t'.profiles| ensures t'.profiles[k].userId != t'.profiles[m].userId {
      if m == |t.profiles| {
        assert IsPatientUser(t, t.profiles[k].userId);
      }
    }
    assert t'.profiles[|t.profiles|].userId == user.id;
  }

  /** One row of the doctor's patient list: the patient's user, profile and token. */
  datatype PatientSummary = PatientSummary(userId: nat, patientId: nat, fullname: string, email: string,
                                           phoneNumber: string, patientToken: string)

  function Summary(t: Tables, p: PatientProfile): PatientSummary
    requires HasUser(t, p.userId)
  {
    var u := t.users[p.userId - 1];
    PatientSummary(p.userId, p.id, u.fullname, u.email, u.phoneNumber, p.token)
  }

  /** The profile is linked to the doctor and its user row exists (the query's two joins). */
  predicate LinkedPatient(t: Tables, doctorId: nat, p: PatientProfile) {
    Link(doctorId, p.id) in t.links && HasUser(t, p.userId)
  }

  function PatientRows(t: Tables, doctorId: nat): PatientProfile -> Option<PatientSummary> {
    (p: PatientProfile) => if LinkedPatient(t, doctorId, p) then Some(Summary(t, p)) else None
  }

  /** The patients linked to the calling doctor, or NotFound when there are none. */
  function GetPatients(t: Tables, doctorId: nat): (r: Result<seq<PatientSummary>>)
    ensures r.Err? ==> r.failure == NotFound
    ensures r.Ok? ==> r.value != []
  {
    var rows := Collect(t.profiles, PatientRows(t, doctorId));
    if rows == [] then Err(NotFound) else Ok(rows)
  }

  /**
   * The list holds exactly the summaries of the profiles linked to the
   * doctor, so only linked patients appear, and it is NotFound exactly when
   * no profile is linked.
   */
  lemma GetPatientsExact(t: Tables, doctorId: nat)
    ensures GetPatients(t, doctorId).Ok? <==> exists k :: 0 <= k < |t.profiles| && LinkedPatient(t, doctorId, t.profiles[k])
    ensures GetPatients(t, doctorId).Ok? ==>
      forall s :: s in GetPatients(t, doctorId).value <==>
        exists k :: 0 <= k < |t.profiles| && LinkedPatient(t, doctorId, t.profiles[k]) && s == Summary(t, t.profiles[k])
    ensures GetPatients(t, doctorId).Ok? ==>
      forall s :: s in GetPatients(t, doctorId).value ==> Link(doctorId, s.patientId) in t.links
  {
    PatientRowsExact(t, doctorId);
    var rows := Collect(t.profiles, PatientRows(t, doctorId));
    if rows != [] {
      assert rows[0] in rows;
    }
    if exists k :: 0 <= k < |t.profiles| && LinkedPatient(t, doctorId, t.profiles[k]) {
      var k :| 0 <= k < |t.profiles| && LinkedPatient(t, doctorId, t.profiles[k]);
      assert Summary(t, t.profiles[k]) in rows;
    }
  }

  /** The rows of the patient query are the summaries of the linked profiles, each naming a linked profile. */
  lemma PatientRowsExact(t: Tables, doctorId: nat)
    ensures forall s :: s in Collect(t.profiles, PatientRows(t, doctorId)) <==>
      exists k :: 0 <= k < |t.profiles| && LinkedPatient(t, doctorId, t.profiles[k]) && s == Summary(t, t.profiles[k])
    ensures forall k :: 0 <= k < |t.profiles| && LinkedPatient(t, doctorId, t.profiles[k]) ==>
      Summary(t, t.profiles[k]) in Collect(t.profiles, PatientRows(t, doctorId))
    ensures forall s :: s in Collect(t.profiles, PatientRows(t, doctorId)) ==> Link(doctorId, s.patientId) in t.links
  {
    var f := PatientRows(t, doctorId);
    var rows := Collect(t.profiles, f);
    CollectMembership(t.profiles, f);
    forall k | 0 <= k < |t.profiles| && LinkedPatient(t, doctorId, t.profiles[k]) ensures Summary(t, t.profiles[k]) in rows {
      assert f(t.profiles[k]) == Some(Summary(t, t.profiles[k]));
    }
    forall s | s in rows ensures Link(doctorId, s.patientId) in t.links {
      var k := CollectSource(t.profiles, f, s);
    }
  }

  /**
   * Removes the link between the calling doctor and the patient's profile.
   * NotFound when the user has no profile or the link does not exist.
   */
  method DeletePatient(db: Database, doctorId: nat, patientUserId: nat) returns (r: Result<()>)
    requires db.Valid()
    modifies db
    ensures db.Valid()
    ensures var profile := ProfileOfUser(old(db.State()), patientUserId);
      r.Ok? <==> profile.Some? && Link(doctorId, profile.value) in old(db.links)
    ensures r.Err? ==> r.failure == NotFound && unchanged(db)
    ensures r.Ok? ==>
      var edge := Link(doctorId, ProfileOfUser(old(db.State()), patientUserId).value);
      && db.State() == old(db.State()).(links := old(db.links) - {edge})
      && |db.links| == |old(db.links)| - 1
  {
    var profile := ProfileOfUser(db.State(), patientUserId);
    if profile.None? {
      return Err(NotFound);
    }
    var edge := Link(doctorId, profile.value);
    if edge !in db.links {
      return Err(NotFound);
    }
    db.links := db.links - {edge};
    r := Ok(());
  }
}
