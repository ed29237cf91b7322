/**
 * The relational store the handlers share (DBHandler.js): one row type per
 * table, the tables as one value, the consistency every handler keeps, the
 * lookups the handlers' subqueries perform, and the store itself as an
 * object whose tables the handlers update in place.
 *
 * AUTO_INCREMENT keys are modelled as gap-free positions: the row whose id
 * is k sits at position k - 1, and 0 never names a row (the handlers read a
 * 0 or empty request field as missing). The server may skip ids after a
 * refused insert; positions are a renaming of those ids.
 */
module Schema {
  import opened Wrappers
  import opened Seqs

  /** The values of the users.role ENUM. */
  datatype Role = Doctor | Patient | Admin

  /** Cost factor every bcrypt.hash call in the program uses. */
  const HashRounds: nat := 10

  /** bcrypt reads no more than this many bytes of a password; the rest is ignored. */
  const BcryptMaxBytes: nat := 72

  /** The part of a password bcrypt reads, one character standing for one byte. */
  function Truncated(password: string): (r: string)
    ensures |r| == if |password| <= BcryptMaxBytes then |password| else BcryptMaxBytes
    ensures r <= password
    ensures |password| <= BcryptMaxBytes ==> r == password
  {
    if |password| <= BcryptMaxBytes then password else password[..BcryptMaxBytes]
  }

  /**
   * A bcrypt digest as a symbolic term: the salt is the random part and the
   * key is the part of the password bcrypt reads, recoverable by no
   * operation of the model except Matches, which stands for bcrypt.compare.
   */
  datatype Digest = Bcrypt(rounds: nat, salt: nat, key: string)

  /** A digest accepts exactly the passwords that agree with the hashed one on the bytes bcrypt reads. */
  function Hash(password: string, salt: nat): (d: Digest)
    ensures Matches(password, d)
    ensures forall other :: Matches(other, d) <==> Truncated(other) == Truncated(password)
  {
    Bcrypt(HashRounds, salt, Truncated(password))
  }

  predicate Matches(password: string, d: Digest) {
    Truncated(password) == d.key
  }

  /** Two passwords that agree on their first 72 characters are interchangeable for bcrypt. */
  lemma {:induction false} LongPasswordsCollide(password: string, suffix: string, salt: nat)
    requires |password| >= BcryptMaxBytes
    ensures Matches(password + suffix, Hash(password, salt))
  {
    assert (password + suffix)[..BcryptMaxBytes] == password[..BcryptMaxBytes];
  }

  // ---------------------------------------------------------------------
  // Collation

  /** ASCII letters compare without regard to case under the server's default collation. */
  function FoldChar(c: char): char {
    if 'A' <= c <= 'Z' then (c as int + 32) as char else c
  }

  function Fold(s: string): (r: string)
    ensures |r| == |s|
  {
    seq(|s|, i requires 0 <= i < |s| => FoldChar(s[i]))
  }

  /** Two stored strings compare equal in a WHERE clause or a UNIQUE index. */
  predicate SameKey(a: string, b: string) {
    Fold(a) == Fold(b)
  }

  /** Strings that differ only in the case of ASCII letters compare equal. */
  lemma CaseIgnored(a: string, b: string)
    requires |a| == |b|
    requires forall i :: 0 <= i < |a| ==> a[i] == b[i] || FoldChar(a[i]) == b[i] || a[i] == FoldChar(b[i])
    ensures SameKey(a, b)
  {
    assert forall i :: 0 <= i < |a| ==> Fold(a)[i] == Fold(b)[i];
  }

  datatype User = User(id: nat, fullname: string, email: string, passwordHash: Digest, phoneNumber: string, role: Role)

  /** A row of `patients`: the profile of a Patient user and its patient token. */
  datatype PatientProfile = PatientProfile(id: nat, userId: nat, token: string)

  datatype SignupToken = SignupToken(token: string, isUsed: bool)

  /** A row of `doctor_patient_links`: a doctor's user id and a patient's profile id. */
  datatype Link = Link(doctorId: nat, patientId: nat)

  datatype Medication = Medication(name: string, dosage: string, frequency: string)

  /** A prescription header; patientId is a profile id. */
  datatype Prescription = Prescription(id: nat, doctorId: nat, patientId: nat, createdAt: nat)

  /** A row of `prescription_medications`. */
  datatype MedicationLine = MedicationLine(prescriptionId: nat, medication: Medication)

  /** A row of `chat_messages`; both ends are user ids. */
  datatype ChatMessage = ChatMessage(id: nat, senderId: nat, receiverId: nat, text: string, sentAt: nat)

  datatype Tables = Tables(
    users: seq<User>,
    profiles: seq<PatientProfile>,
    signupTokens: seq<SignupToken>,
    links: set<Link>,
    prescriptions: seq<Prescription>,
    medicationLines: seq<MedicationLine>,
    messages: seq<ChatMessage>)

  const EmptyTables := Tables([], [], [], {}, [], [], [])

  /** The result kinds a handler reports in place of an HTTP status. */
  datatype Failure = InvalidInput | Duplicate | InvalidToken | Unauthorized | NotFound | InvalidCredentials

  datatype Result<+T> = Ok(value: T) | Err(failure: Failure)

  /** A request field is present when it is not empty. */
  predicate Present(field: string) {
    field != ""
  }

  // ---------------------------------------------------------------------
  // Consistency of the tables

  ghost predicate UsersWellFormed(users: seq<User>) {
    && (forall i :: 0 <= i < |users| ==> users[i].id == i + 1)
    && (forall i, j :: 0 <= i < j < |users| ==> !SameKey(users[i].email, users[j].email))
  }

  predicate IsPatientUser(t: Tables, userId: nat) {
    1 <= userId <= |t.users| && t.users[userId - 1].role == Patient
  }

  ghost predicate ProfilesWellFormed(t: Tables) {
    && (forall k :: 0 <= k < |t.profiles| ==> t.profiles[k].id == k + 1 && IsPatientUser(t, t.profiles[k].userId))
    && (forall k, m :: 0 <= k < m < |t.profiles| ==> t.profiles[k].userId != t.profiles[m].userId)
    && (forall l :: l in t.links ==> 1 <= l.patientId <= |t.profiles|)
  }

  ghost predicate PrescriptionsWellFormed(t: Tables) {
    && (forall i :: 0 <= i < |t.prescriptions| ==>
          t.prescriptions[i].id == i + 1 && 1 <= t.prescriptions[i].patientId <= |t.profiles|)
    && (forall i, j :: 0 <= i < j < |t.prescriptions| ==> t.prescriptions[i].createdAt <= t.prescriptions[j].createdAt)
    && (forall line :: line in t.medicationLines ==> 1 <= line.prescriptionId <= |t.prescriptions|)
  }

  ghost predicate MessagesWellFormed(messages: seq<ChatMessage>) {
    && (forall i :: 0 <= i < |messages| ==> messages[i].id == i + 1)
    && (forall i, j :: 0 <= i < j < |messages| ==> messages[i].sentAt <= messages[j].sentAt)
  }

  /**
   * Keys match positions, email is UNIQUE, every profile belongs to its own
   * Patient user, every link and prescription names an existing profile,
   * every medication line an existing prescription, and headers and
   * messages are stored in the order of their timestamps.
   */
  ghost predicate WellFormed(t: Tables) {
    && UsersWellFormed(t.users)
    && ProfilesWellFormed(t)
    && PrescriptionsWellFormed(t)
    && MessagesWellFormed(t.messages)
  }

  /** `now` is a reading of a clock that never runs backwards. */
  predicate NotBefore(t: Tables, now: nat) {
    && (forall p :: p in t.prescriptions ==> p.createdAt <= now)
    && (forall m :: m in t.messages ==> m.sentAt <= now)
  }

  // ---------------------------------------------------------------------
  // Lookups by key and the subqueries the handlers share

  predicate HasUser(t: Tables, id: nat) {
    1 <= id <= |t.users|
  }

  function UserName(t: Tables, id: nat): string
    requires HasUser(t, id)
  {
    t.users[id - 1].fullname
  }

  function PrescriptionById(t: Tables, id: nat): Option<Prescription> {
    if 1 <= id <= |t.prescriptions| then Some(t.prescriptions[id - 1]) else None
  }

  /** `SELECT user_id FROM patients WHERE id = ?`. */
  function ProfileUser(t: Tables, profileId: nat): (r: Option<nat>)
    ensures WellFormed(t) ==> (r.Some? <==> exists k :: 0 <= k < |t.profiles| && t.profiles[k].id == profileId)
    ensures WellFormed(t) ==> forall k :: 0 <= k < |t.profiles| && t.profiles[k].id == profileId ==> r == Some(t.profiles[k].userId)
  {
    if 1 <= profileId <= |t.profiles| then Some(t.profiles[profileId - 1].userId) else None
  }

  /** `SELECT id FROM patients WHERE user_id = ?`, first row. */
  function ProfileOfUser(t: Tables, userId: nat): (r: Option<nat>)
    ensures r.None? <==> forall k :: 0 <= k < |t.profiles| ==> t.profiles[k].userId != userId
    ensures WellFormed(t) ==> forall k :: 0 <= k < |t.profiles| && t.profiles[k].userId == userId ==> r == Some(k + 1)
    ensures WellFormed(t) && r.Some? ==> 1 <= r.value <= |t.profiles| && t.profiles[r.value - 1].userId == userId
  {
    match FirstIndex(t.profiles, (p: PatientProfile) => p.userId == userId)
    case None => None
    case Some(k) => Some(t.profiles[k].id)
  }

  /** `SELECT * FROM users WHERE email = ?`, first row, as a position; the comparison follows the collation. */
  function UserWithEmail(users: seq<User>, email: string): (r: Option<nat>)
    ensures r.Some? ==> r.value < |users| && SameKey(users[r.value].email, email)
    ensures r.Some? ==> forall k :: 0 <= k < r.value ==> !SameKey(users[k].email, email)
    ensures r.None? <==> forall i :: 0 <= i < |users| ==> !SameKey(users[i].email, email)
    ensures UsersWellFormed(users) ==> forall i :: 0 <= i < |users| && SameKey(users[i].email, email) ==> r == Some(i)
  {
    FirstIndex(users, (u: User) => SameKey(u.email, email))
  }

  predicate EmailTaken(users: seq<User>, email: string) {
    UserWithEmail(users, email).Some?
  }

  /** Appending a user with the next id and an unused email keeps the users table well formed. */
  lemma AddUser(users: seq<User>, u: User)
    requires UsersWellFormed(users)
    requires u.id == |users| + 1 && !EmailTaken(users, u.email)
    ensures UsersWellFormed(users + [u])
  {
  }

  // ---------------------------------------------------------------------
  // The store

  /** The database the handlers share: one field per table. */
  class Database {
    var users: seq<User>
    var profiles: seq<PatientProfile>
    var signupTokens: seq<SignupToken>
    var links: set<Link>
    var prescriptions: seq<Prescription>
    var medicationLines: seq<MedicationLine>
    var messages: seq<ChatMessage>

    function State(): Tables
      reads this
    {
      Tables(users, profiles, signupTokens, links, prescriptions, medicationLines, messages)
    }

    ghost predicate Valid()
      reads this
    {
      WellFormed(State())
    }

    /** Freshly created tables hold no rows. */
    constructor ()
      ensures Valid() && State() == EmptyTables
    {
      users, profiles, signupTokens, links := [], [], [], {};
      prescriptions, medicationLines, messages := [], [], [];
    }
  }
}
