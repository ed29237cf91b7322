/**
 * Account creation and sign-in (controller/Account.js). The handlers keep
 * their order of steps: signup looks the email up before it inserts, signin
 * looks the user up by email and then compares the password.
 */
module Accounts {
  import opened Wrappers
  import opened Schema

  /** What a successful sign-in puts into its session token. */
  datatype Session = Session(userId: nat, email: string)

  /**
   * Self-signup: refuses an email already in use, otherwise stores one user
   * with the hashed password. The insert names no phone number, so the row
   * gets an empty one.
   */
  method Signup(db: Database, fullname: string, email: string, password: string, role: Role, salt: nat)
    returns (r: Result<()>)
    requires db.Valid()
    modifies db
    ensures db.Valid()
    ensures r.Ok? <==> !EmailTaken(old(db.users), email)
    ensures r.Err? ==> r.failure == Duplicate && unchanged(db)
    ensures r.Ok? ==>
      db.State() == old(db.State()).(users := old(db.users) + [User(|old(db.users)| + 1, fullname, email, Hash(password, salt), "", role)])
  {
    if EmailTaken(db.users, email) {
      return Err(Duplicate);
    }
    var user := User(|db.users| + 1, fullname, email, Hash(password, salt), "", role);
    AddUser(db.users, user);
    db.users := db.users + [user];
    r := Ok(());
  }

  /**
   * Sign-in: the first user whose email equals the given one under the
   * collation, if its stored digest matches the password. An unknown email
   * and a wrong password fail alike. The session carries the stored email.
   */
  function Signin(t: Tables, email: string, password: string): (r: Result<Session>)
    ensures r.Err? ==> r.failure == InvalidCredentials
    ensures r.Ok? ==> SameKey(r.value.email, email)
    ensures r.Ok? && UsersWellFormed(t.users) ==> HasUser(t, r.value.userId) && t.users[r.value.userId - 1].email == r.value.email
  {
    match UserWithEmail(t.users, email)
    case None => Err(InvalidCredentials)
    case Some(i) =>
      var user := t.users[i];
      if Matches(password, user.passwordHash) then Ok(Session(user.id, user.email)) else Err(InvalidCredentials)
  }

  /** Sign-in succeeds exactly when some stored user's email equals the given one and its digest matches the password. */
  lemma SigninExact(t: Tables, email: string, password: string)
    requires UsersWellFormed(t.users)
    ensures Signin(t, email, password).Ok? <==>
      exists i :: 0 <= i < |t.users| && SameKey(t.users[i].email, email) && Matches(password, t.users[i].passwordHash)
    ensures Signin(t, email, password).Ok? ==>
      var s := Signin(t, email, password).value;
      SameKey(t.users[s.userId - 1].email, email) && Matches(password, t.users[s.userId - 1].passwordHash)
  {
    if exists i :: 0 <= i < |t.users| && SameKey(t.users[i].email, email) && Matches(password, t.users[i].passwordHash) {
      var i :| 0 <= i < |t.users| && SameKey(t.users[i].email, email) && Matches(password, t.users[i].passwordHash);
      assert UserWithEmail(t.users, email) == Some(i);
    }
  }

  /**
   * A user just added signs in with any spelling of the email that the
   * collation equates with the stored one, exactly when the password agrees
   * with the one given at sign-up on the part bcrypt reads.
   */
  lemma SigninAfterSignup(t: Tables, user: User, typed: string, password: string, other: string, salt: nat)
    requires UsersWellFormed(t.users)
    requires user.id == |t.users| + 1 && !EmailTaken(t.users, user.email) && user.passwordHash == Hash(password, salt)
    requires SameKey(typed, user.email)
    ensures Signin(t.(users := t.users + [user]), typed, other) ==
      if Truncated(other) == Truncated(password) then Ok(Session(user.id, user.email)) else Err(InvalidCredentials)
  {
    var users := t.users + [user];
    AddUser(t.users, user);
    assert SameKey(users[|t.users|].email, typed);
    assert UserWithEmail(users, typed) == Some(|t.users|);
  }

  /** Sign-out only clears the client's cookie. */
  function Signout(): (r: Result<()>)
    ensures r.Ok?
  {
    Ok(())
  }
}
