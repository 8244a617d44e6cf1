/** The mock authentication backend of `shared/api/mocks/handlers/auth.ts`: a user
    list and a password map shared by the `/auth/login` and `/auth/register` handlers. */
module AuthMock {
  import opened Common
  import opened Strings

  datatype User = User(id: string, email: string)

  /** The part of a successful reply the model keeps: the status and the user.
      The access token and the refresh cookie come from token code outside this model. */
  datatype AuthReply = AuthReply(status: nat, user: User)

  const INVALID_CREDENTIALS := ApiError(401, "INVALID_CREDENTIALS")
  const USER_EXISTS := ApiError(400, "USER_EXISTS")
  const LOGIN_OK := 200
  const CREATED := 201

  const ADMIN_EMAIL := "admin@gmail.com"
  const ADMIN_PASSWORD := "123456"

  /** `users.some(u => u.email === email)`. */
  predicate EmailTaken(users: seq<User>, email: string) {
    exists i :: 0 <= i < |users| && users[i].email == email
  }

  /** The index `users.find(u => u.email === email)` stops at, or -1. */
  function FirstWithEmail(users: seq<User>, email: string): (i: int)
    ensures -1 <= i < |users|
    ensures i == -1 <==> !EmailTaken(users, email)
    ensures i >= 0 ==> users[i].email == email && forall j :: 0 <= j < i ==> users[j].email != email
  {
    if users == [] then -1
    else if users[0].email == email then 0
    else
      var k := FirstWithEmail(users[1..], email);
      if k == -1 then -1 else k + 1
  }

  /** `userPasswords.get(email)`. */
  function StoredPassword(passwords: map<string, string>, email: string): Option<string> {
    if email in passwords then Some(passwords[email]) else None
  }

  /** The decision of the login handler: the first user with that email, provided a
      truthy password is stored for the email and equals the submitted one. */
  function Authenticate(users: seq<User>, passwords: map<string, string>,
                        email: string, password: string): (r: Result<User, ApiError>)
    ensures r.Success? <==>
              EmailTaken(users, email) && email in passwords
              && passwords[email] != "" && passwords[email] == password
    ensures r.Success? ==> r.value in users && r.value.email == email
    ensures r.Failure? ==> r.error == INVALID_CREDENTIALS
  {
    var i := FirstWithEmail(users, email);
    var stored := StoredPassword(passwords, email);
    if i == -1 || !Truthy(stored) || stored.value != password then Failure(INVALID_CREDENTIALS)
    else Success(users[i])
  }

  /** The user the register handler appends: its id is the new length in decimal. */
  function NewUser(users: seq<User>, email: string): (u: User)
    ensures u.email == email
  {
    User(Decimal(|users| + 1), email)
  }

  /** The store invariant: emails are pairwise distinct, the user at index `i` has id
      `String(i + 1)`, and the password map holds exactly the users' emails. */
  predicate StoreInvariant(users: seq<User>, passwords: map<string, string>) {
    && (forall i, j :: 0 <= i < j < |users| ==> users[i].email != users[j].email)
    && (forall i :: 0 <= i < |users| ==> users[i].id == Decimal(i + 1))
    && (forall i :: 0 <= i < |users| ==> users[i].email in passwords)
    && (forall email :: email in passwords ==> EmailTaken(users, email))
  }

  /** The seeded store satisfies the invariant. */
  lemma SeedInvariant()
    ensures StoreInvariant([User("1", ADMIN_EMAIL)], map[ADMIN_EMAIL := ADMIN_PASSWORD])
  {
    assert Decimal(1) == "1";
    var users := [User("1", ADMIN_EMAIL)];
    assert users[0].email == ADMIN_EMAIL;
  }

  /** The invariant gives every user a different id. */
  lemma {:induction false} IdsDistinct(users: seq<User>, passwords: map<string, string>)
    requires StoreInvariant(users, passwords)
    ensures forall i, j :: 0 <= i < j < |users| ==> users[i].id != users[j].id
  {
    forall i, j | 0 <= i < j < |users|
      ensures users[i].id != users[j].id
    {
      DecimalDistinct(i + 1, j + 1);
    }
  }

  /** Registering a new email keeps the invariant. */
  lemma {:induction false} RegisterKeepsInvariant(users: seq<User>, passwords: map<string, string>,
                                                  email: string, password: string)
    requires StoreInvariant(users, passwords) && !EmailTaken(users, email)
    ensures StoreInvariant(users + [NewUser(users, email)], passwords[email := password])
  {
    var users' := users + [NewUser(users, email)];
    var passwords' := passwords[email := password];
    assert forall i :: 0 <= i < |users| ==> users'[i] == users[i];
    assert users'[|users|] == User(Decimal(|users| + 1), email);
    forall i, j | 0 <= i < j < |users'|
      ensures users'[i].email != users'[j].email
    {
      if j == |users| {
        assert users[i].email != email;
      }
    }
    forall e | e in passwords'
      ensures EmailTaken(users', e)
    {
      if e == email {
        assert users'[|users|].email == email;
      } else {
        var i :| 0 <= i < |users| && users[i].email == e;
        assert users'[i].email == e;
      }
    }
  }

  /** After a successful register, logging in with the same email and password
      succeeds and yields the new user, provided the password is not empty. */
  lemma {:induction false} LoginAfterRegister(users: seq<User>, passwords: map<string, string>,
                                              email: string, password: string)
    requires !EmailTaken(users, email) && password != ""
    ensures Authenticate(users + [NewUser(users, email)], passwords[email := password], email, password)
            == Success(NewUser(users, email))
  {
    var users' := users + [NewUser(users, email)];
    assert users'[|users|].email == email;
    assert forall j :: 0 <= j < |users| ==> users'[j] == users[j];
    assert FirstWithEmail(users', email) == |users|;
  }

  /** An empty stored or submitted password never logs in: the stored password is
      tested for truthiness before it is compared. */
  lemma EmptyPasswordNeverLogsIn(users: seq<User>, passwords: map<string, string>, email: string)
    ensures Authenticate(users, passwords, email, "").Failure?
  {
  }

  /** The module-level stores `mockUsers` and `userPasswords`. */
  class AuthBackend {
    var users: seq<User>
    var passwords: map<string, string>

    ghost predicate Valid()
      reads this
    {
      StoreInvariant(users, passwords)
    }

    /** The seeded store: the administrator with id "1" and password "123456". */
    constructor ()
      ensures Valid()
      ensures users == [User("1", ADMIN_EMAIL)] && passwords == map[ADMIN_EMAIL := ADMIN_PASSWORD]
    {
      users := [User("1", ADMIN_EMAIL)];
      passwords := map[ADMIN_EMAIL := ADMIN_PASSWORD];
      SeedInvariant();
    }

    /** `POST /auth/login`: 200 with the user when the credentials match, 401
        `INVALID_CREDENTIALS` otherwise; the stores are only read. */
    method Login(email: string, password: string) returns (r: Result<AuthReply, ApiError>)
      ensures r.Success? <==>
                EmailTaken(users, email) && email in passwords
                && passwords[email] != "" && passwords[email] == password
      ensures r.Success? ==> r.value.status == LOGIN_OK && r.value.user in users && r.value.user.email == email
      ensures r.Failure? ==> r.error == INVALID_CREDENTIALS
    {
      var found := Authenticate(users, passwords, email, password);
      if found.Failure? {
        return Failure(found.error);
      }
      return Success(AuthReply(LOGIN_OK, found.value));
    }

    /** `POST /auth/register`: 400 `USER_EXISTS` and no change for a known email;
        otherwise one user is appended with id `String(previous count + 1)`, the
        email's password is recorded, and 201 is returned with the new user. */
    method Register(email: string, password: string) returns (r: Result<AuthReply, ApiError>)
      requires Valid()
      modifies this
      ensures Valid()
      ensures EmailTaken(old(users), email) ==>
                r == Failure(USER_EXISTS) && users == old(users) && passwords == old(passwords)
      ensures !EmailTaken(old(users), email) ==>
                && users == old(users) + [NewUser(old(users), email)]
                && passwords == old(passwords)[email := password]
                && r == Success(AuthReply(CREATED, NewUser(old(users), email)))
    {
      if EmailTaken(users, email) {
        return Failure(USER_EXISTS);
      }
      var user := NewUser(users, email);
      RegisterKeepsInvariant(users, passwords, email, password);
      users := users + [user];
      passwords := passwords[email := password];
      return Success(AuthReply(CREATED, user));
    }
  }
}
