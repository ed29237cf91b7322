/**
 * Messaging between linked doctors and patients (controller/chat.js). A
 * doctor names the counterpart by patient profile id, a patient by the
 * doctor's user id; both are turned into one check on the link table, and
 * messages are stored between user ids.
 */
module Chat {
  import opened Wrappers
  import opened Seqs
  import opened Schema

  /**
   * The link check of sendMessage and getChatHistory: a doctor must be linked
   * to the profile it names, a patient's own profile must be linked to the
   * doctor it names, and no other role passes.
   */
  predicate Linked(t: Tables, role: Role, callerId: nat, counterpartId: nat) {
    match role
    case Doctor => Link(callerId, counterpartId) in t.links
    case Patient => ProfileOfUser(t, callerId).Some? && Link(counterpartId, ProfileOfUser(t, callerId).value) in t.links
    case Admin => false
  }

  /** The two checks agree: a doctor reaches a profile exactly when that profile's user reaches the doctor. */
  lemma LinkedBothWays(t: Tables, doctorId: nat, profileId: nat)
    requires WellFormed(t) && 1 <= profileId <= |t.profiles|
    ensures Linked(t, Doctor, doctorId, profileId) <==> Linked(t, Patient, t.profiles[profileId - 1].userId, doctorId)
  {
  }

  /**
   * The user ids a conversation is between, (caller, counterpart), as the
   * queries' subqueries compute them; None where a subquery finds no row.
   */
  function Parties(t: Tables, role: Role, callerId: nat, counterpartId: nat): Option<(nat, nat)> {
    match role
    case Doctor =>
      (match ProfileUser(t, counterpartId)
       case None => None
       case Some(patientUser) => Some((callerId, patientUser)))
    case Patient =>
      (match ProfileOfUser(t, callerId)
       case None => None
       case Some(profileId) =>
         match ProfileUser(t, profileId)
         case None => None
         case Some(self) => Some((self, counterpartId)))
    case Admin => None
  }

  /** The user a doctor reaches through a patient profile id, or the doctor a patient names. */
  function Counterpart(t: Tables, role: Role, counterpartId: nat): nat
    requires role == Doctor ==> 1 <= counterpartId <= |t.profiles|
  {
    if role == Doctor then t.profiles[counterpartId - 1].userId else counterpartId
  }

  /** Once the link check passes, the caller is one party and the named counterpart the other. */
  lemma PartiesOfLinked(t: Tables, role: Role, callerId: nat, counterpartId: nat)
    requires WellFormed(t) && Linked(t, role, callerId, counterpartId)
    ensures role == Doctor ==> 1 <= counterpartId <= |t.profiles|
    ensures Parties(t, role, callerId, counterpartId) == Some((callerId, Counterpart(t, role, counterpartId)))
  {
  }

  predicate ValidMessage(receiverId: nat, text: string) {
    receiverId != 0 && Present(text)
  }

  /**
   * Stores one message from the caller to the counterpart when the request
   * is complete, the role is Doctor or Patient and the link check passes;
   * otherwise nothing is stored. A doctor's message goes to the user behind
   * the named profile; a patient's message is sent as the patient's own user.
   */
  method SendMessage(db: Database, senderId: nat, role: Role, receiverId: nat, text: string, now: nat)
    returns (r: Result<nat>)
    requires db.Valid() && NotBefore(db.State(), now)
    modifies db
    ensures db.Valid()
    ensures !ValidMessage(receiverId, text) ==> r == Err(InvalidInput)
    ensures r.Ok? <==> ValidMessage(receiverId, text) && Linked(old(db.State()), role, senderId, receiverId)
    ensures r.Err? ==> unchanged(db)
    ensures r.Err? && ValidMessage(receiverId, text) ==> r.failure == Unauthorized
    ensures r.Ok? ==>
      && r.value == |old(db.messages)| + 1
      && (role == Doctor ==> 1 <= receiverId <= |old(db.profiles)|)
      && db.State() == old(db.State()).(messages := old(db.messages) +
           [ChatMessage(r.value, senderId, Counterpart(old(db.State()), role, receiverId), text, now)])
  {
    if receiverId == 0 || text == "" {
      return Err(InvalidInput);
    }
    if role == Admin {
      return Err(Unauthorized);
    }
    if !Linked(db.State(), role, senderId, receiverId) {
      return Err(Unauthorized);
    }
    PartiesOfLinked(db.State(), role, senderId, receiverId);
    var from, to;
    if role == Doctor {
      from := senderId;
      to := db.profiles[receiverId - 1].userId;
    } else {
      var profileId := ProfileOfUser(db.State(), senderId).value;
      from := db.profiles[profileId - 1].userId;
      to := receiverId;
    }
    var message := ChatMessage(|db.messages| + 1, from, to, text, now);
    NewMessageKeepsWellFormed(db.State(), message);
    db.messages := db.messages + [message];
    r := Ok(message.id);
  }

  lemma NewMessageKeepsWellFormed(t: Tables, m: ChatMessage)
    requires WellFormed(t) && NotBefore(t, m.sentAt) && m.id == |t.messages| + 1
    ensures WellFormed(t.(messages := t.messages + [m]))
  {
    var ms := t.messages + [m];
    forall i, j | 0 <= i < j < |ms| ensures ms[i].sentAt <= ms[j].sentAt {
      if j == |t.messages| {
        assert t.messages[i] in t.messages;
      }
    }
  }

  /** One row of a history: the message, the role the viewer's side gives its sender, and both names. */
  datatype HistoryEntry = HistoryEntry(message: ChatMessage, senderRole: Role, senderName: string, receiverName: string)

  /** The message went from one party to the other, in either direction. */
  predicate Between(m: ChatMessage, a: nat, b: nat) {
    (m.senderId == a && m.receiverId == b) || (m.senderId == b && m.receiverId == a)
  }

  /** A message of the conversation whose sender and receiver rows exist (the query's joins). */
  predicate Shown(t: Tables, m: ChatMessage, a: nat, b: nat) {
    Between(m, a, b) && HasUser(t, m.senderId) && HasUser(t, m.receiverId)
  }

  function OtherRole(role: Role): Role {
    if role == Doctor then Patient else Doctor
  }

  function Entry(t: Tables, role: Role, self: nat, m: ChatMessage): HistoryEntry
    requires HasUser(t, m.senderId) && HasUser(t, m.receiverId)
  {
    HistoryEntry(m, if m.senderId == self then role else OtherRole(role), UserName(t, m.senderId), UserName(t, m.receiverId))
  }

  function HistoryRows(t: Tables, role: Role, self: nat, other: nat): ChatMessage -> Option<HistoryEntry> {
    (m: ChatMessage) => if Shown(t, m, self, other) then Some(Entry(t, role, self, m)) else None
  }

  /** The conversation with a linked counterpart, oldest message first. */
  function GetChatHistory(t: Tables, role: Role, callerId: nat, partnerId: nat): (r: Result<seq<HistoryEntry>>)
    ensures r.Ok? <==> Linked(t, role, callerId, partnerId)
    ensures r.Err? ==> r.failure == Unauthorized
  {
    if role == Admin || !Linked(t, role, callerId, partnerId) then Err(Unauthorized)
    else
      match Parties(t, role, callerId, partnerId)
      case None => Ok([])
      case Some((self, other)) => Ok(Collect(t.messages, HistoryRows(t, role, self, other)))
  }

  /**
   * The history holds exactly the messages between the caller and the
   * counterpart, in both directions, oldest first; each is labelled with the
   * caller's role when the caller sent it and the other role otherwise.
   */
  lemma GetChatHistoryExact(t: Tables, role: Role, callerId: nat, partnerId: nat)
    requires WellFormed(t) && Linked(t, role, callerId, partnerId)
    ensures role == Doctor ==> 1 <= partnerId <= |t.profiles|
    ensures var other := Counterpart(t, role, partnerId);
      var history := GetChatHistory(t, role, callerId, partnerId).value;
      && (forall e :: e in history ==>
            && e.message in t.messages && Shown(t, e.message, callerId, other)
            && e.senderRole == (if e.message.senderId == callerId then role else OtherRole(role))
            && e.senderName == UserName(t, e.message.senderId) && e.receiverName == UserName(t, e.message.receiverId))
      && (forall m :: m in t.messages && Shown(t, m, callerId, other) ==> exists e :: e in history && e.message == m)
      && (forall i, j :: 0 <= i < j < |history| ==> history[i].message.sentAt <= history[j].message.sentAt)
  {
    PartiesOfLinked(t, role, callerId, partnerId);
    var other := Counterpart(t, role, partnerId);
    var f := HistoryRows(t, role, callerId, other);
    var history := Collect(t.messages, f);
    assert GetChatHistory(t, role, callerId, partnerId).value == history;
    CollectMembership(t.messages, f);
    forall m | m in t.messages && Shown(t, m, callerId, other) ensures exists e :: e in history && e.message == m {
      var i :| 0 <= i < |t.messages| && t.messages[i] == m;
      assert f(t.messages[i]) == Some(Entry(t, role, callerId, m));
    }
    CollectAscending(t.messages, f, (m: ChatMessage) => m.sentAt, (e: HistoryEntry) => e.message.sentAt);
  }

  /** A conversation partner: a profile id and name for a doctor, a doctor's user id and name for a patient. */
  datatype Partner = Partner(id: nat, name: string)

  function PatientPartners(t: Tables, doctorId: nat): PatientProfile -> Option<Partner> {
    (p: PatientProfile) =>
      if Link(doctorId, p.id) in t.links && HasUser(t, p.userId) then Some(Partner(p.id, UserName(t, p.userId))) else None
  }

  function DoctorPartners(t: Tables, profileId: nat): User -> Option<Partner> {
    (u: User) => if Link(u.id, profileId) in t.links then Some(Partner(u.id, u.fullname)) else None
  }

  /** A doctor's linked patient profiles or a patient's linked doctors; other roles are refused. */
  function GetChatPartners(t: Tables, callerId: nat, role: Role): (r: Result<seq<Partner>>)
    ensures r.Ok? <==> role != Admin
    ensures r.Err? ==> r.failure == Unauthorized
  {
    match role
    case Doctor => Ok(Collect(t.profiles, PatientPartners(t, callerId)))
    case Patient =>
      (match ProfileOfUser(t, callerId)
       case None => Ok([])
       case Some(profileId) => Ok(Collect(t.users, DoctorPartners(t, profileId))))
    case Admin => Err(Unauthorized)
  }

  /** A doctor's partners are exactly the profiles linked to the doctor. */
  lemma DoctorPartnersExact(t: Tables, doctorId: nat)
    requires WellFormed(t)
    ensures var partners := GetChatPartners(t, doctorId, Doctor).value;
      && (forall q :: q in partners ==>
            && Link(doctorId, q.id) in t.links && 1 <= q.id <= |t.profiles| && HasUser(t, t.profiles[q.id - 1].userId)
            && q.name == UserName(t, t.profiles[q.id - 1].userId))
      && (forall k :: 0 <= k < |t.profiles| && Link(doctorId, k + 1) in t.links ==>
            Partner(k + 1, UserName(t, t.profiles[k].userId)) in partners)
  {
    var f := PatientPartners(t, doctorId);
    CollectMembership(t.profiles, f);
    forall q: Partner | q in Collect(t.profiles, f)
      ensures 1 <= q.id <= |t.profiles| && HasUser(t, t.profiles[q.id - 1].userId) && q.name == UserName(t, t.profiles[q.id - 1].userId)
    {
      var k := CollectSource(t.profiles, f, q);
    }
    forall k | 0 <= k < |t.profiles| && Link(doctorId, k + 1) in t.links
      ensures Partner(k + 1, UserName(t, t.profiles[k].userId)) in Collect(t.profiles, f)
    {
      assert f(t.profiles[k]) == Some(Partner(k + 1, UserName(t, t.profiles[k].userId)));
    }
  }

  /** A patient's partners are exactly the users linked to the patient's own profile. */
  lemma PatientPartnersExact(t: Tables, patientId: nat)
    requires WellFormed(t)
    ensures var partners := GetChatPartners(t, patientId, Patient).value;
      && (forall q :: q in partners ==>
            && HasUser(t, q.id) && q.name == t.users[q.id - 1].fullname
            && exists k :: 0 <= k < |t.profiles| && t.profiles[k].userId == patientId && Link(q.id, k + 1) in t.links)
      && (forall i, k ::
            0 <= i < |t.users| && 0 <= k < |t.profiles| && t.profiles[k].userId == patientId && Link(i + 1, k + 1) in t.links
            ==> Partner(i + 1, t.users[i].fullname) in partners)
  {
    match ProfileOfUser(t, patientId)
    case None =>
    case Some(profileId) =>
      PatientPartnersSound(t, patientId, profileId);
      PatientPartnersComplete(t, patientId, profileId);
  }

  lemma PatientPartnersSound(t: Tables, patientId: nat, profileId: nat)
    requires WellFormed(t) && ProfileOfUser(t, patientId) == Some(profileId)
    ensures forall q :: q in Collect(t.users, DoctorPartners(t, profileId)) ==>
      && HasUser(t, q.id) && q.name == t.users[q.id - 1].fullname
      && exists k :: 0 <= k < |t.profiles| && t.profiles[k].userId == patientId && Link(q.id, k + 1) in t.links
  {
    var f := DoctorPartners(t, profileId);
    forall q: Partner | q in Collect(t.users, f)
      ensures && HasUser(t, q.id) && q.name == t.users[q.id - 1].fullname
              && exists k :: 0 <= k < |t.profiles| && t.profiles[k].userId == patientId && Link(q.id, k + 1) in t.links
    {
      var i := CollectSource(t.users, f, q);
      assert t.profiles[profileId - 1].userId == patientId;
    }
  }

  lemma PatientPartnersComplete(t: Tables, patientId: nat, profileId: nat)
    requires WellFormed(t) && ProfileOfUser(t, patientId) == Some(profileId)
    ensures forall i, k ::
      0 <= i < |t.users| && 0 <= k < |t.profiles| && t.profiles[k].userId == patientId && Link(i + 1, k + 1) in t.links
      ==> Partner(i + 1, t.users[i].fullname) in Collect(t.users, DoctorPartners(t, profileId))
  {
    var f := DoctorPartners(t, profileId);
    CollectMembership(t.users, f);
    forall i, k | 0 <= i < |t.users| && 0 <= k < |t.profiles| && t.profiles[k].userId == patientId && Link(i + 1, k + 1) in t.links
      ensures Partner(i + 1, t.users[i].fullname) in Collect(t.users, f)
    {
      assert f(t.users[i]) == Some(Partner(i + 1, t.users[i].fullname));
    }
  }
}
