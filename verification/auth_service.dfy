/**
 * Registration and login of the credential service
 * (backend/auth_service/main.py) over an in-memory user table.
 *
 * crud.py and models.py are not part of this model: the lookups are
 * "first row whose column equals the key", and `create_user` stores the
 * bcrypt hash of the password under the next free id.
 */
module AuthService {
  import opened Wrappers
  import opened Http
  import Jwt
  import PyInt
  import Schemas
  import Security

  datatype User = User(id: nat, username: string, email: string, hashedPassword: string)

  /** `UserOut`: what `/register` returns (the hash stays inside). */
  datatype UserOut = UserOut(id: nat, username: string, email: string)

  /** `Token`: what `/login` returns. */
  datatype TokenResponse = TokenResponse(accessToken: string, tokenType: string)

  /** A registration is refused either by body validation (422) or by the
      handler (400). */
  datatype RegisterError = InvalidBody(errors: seq<Schemas.FieldError>) | Refused(error: HttpError)

  const PasswordMismatch: HttpError := Plain(400, "Passwords do not match.")
  const EmailTaken: HttpError := Plain(400, "Email already registered.")
  const UsernameTaken: HttpError := Plain(400, "Username already taken.")

  /** The one 401 of `/login`, whatever went wrong. */
  const InvalidCredentials: HttpError :=
    HttpError(401, "Incorrect username, email, or password", BearerChallenge)

  datatype Column = UsernameColumn | EmailColumn

  function ColumnOf(u: User, c: Column): string {
    match c
    case UsernameColumn => u.username
    case EmailColumn => u.email
  }

  /** `crud.get_user_by_username` / `crud.get_user_by_email`: the first row
      whose column equals `key`. */
  function FindBy(users: seq<User>, c: Column, key: string): (r: Option<User>)
    ensures r.None? <==> forall i :: 0 <= i < |users| ==> ColumnOf(users[i], c) != key
    ensures r.Some? ==> exists i :: 0 <= i < |users| && users[i] == r.value
                          && ColumnOf(users[i], c) == key
                          && forall j :: 0 <= j < i ==> ColumnOf(users[j], c) != key
  {
    if users == [] then None
    else if ColumnOf(users[0], c) == key then Some(users[0])
    else
      var r := FindBy(users[1..], c, key);
      assert forall i :: 1 <= i < |users| ==> users[i] == users[1..][i - 1];
      r
  }

  /** Usernames, emails and ids are each unique across the table. */
  ghost predicate UniqueUsers(users: seq<User>) {
    forall i, j :: 0 <= i < j < |users| ==>
      && users[i].id != users[j].id
      && users[i].username != users[j].username
      && users[i].email != users[j].email
  }

  /** The user a registration stores. */
  function NewUser(id: nat, body: Schemas.UserCreate, ctx: Security.CryptContext): User {
    User(id, body.username, body.email, Security.GetPasswordHash(ctx, body.password))
  }

  /** Why `register_user` refuses `body`, checking in the source's order:
      body validation, password confirmation, email, username. */
  function RegisterRejection(users: seq<User>, body: Schemas.UserCreate): (r: Option<RegisterError>)
    ensures r.Some? && r.value.InvalidBody? ==> 1 <= |r.value.errors| <= 2
    ensures r.Some? && r.value.Refused? ==>
      && r.value.error.status == 400
      && r.value.error in {PasswordMismatch, EmailTaken, UsernameTaken}
      && Schemas.ValidatePassword(body.password).Success?
  {
    match Schemas.ValidateUserCreate(body)
    case Failure(errors) => Some(InvalidBody(errors))
    case Success(_) =>
      if body.password != body.confirmPassword then Some(Refused(PasswordMismatch))
      else if FindBy(users, EmailColumn, body.email).Some? then Some(Refused(EmailTaken))
      else if FindBy(users, UsernameColumn, body.username).Some? then Some(Refused(UsernameTaken))
      else None
  }

  /** A registration goes through exactly when both passwords fit bcrypt,
      they match, and neither the email nor the username is in use. */
  lemma RegisterAcceptedExactly(users: seq<User>, body: Schemas.UserCreate)
    ensures RegisterRejection(users, body).None? <==>
      && Schemas.ValidatePassword(body.password).Success?
      && body.password == body.confirmPassword
      && (forall i :: 0 <= i < |users| ==> users[i].email != body.email)
      && (forall i :: 0 <= i < |users| ==> users[i].username != body.username)
  {
    var e := FindBy(users, EmailColumn, body.email);
    var u := FindBy(users, UsernameColumn, body.username);
    assert e.None? <==> forall i :: 0 <= i < |users| ==> users[i].email != body.email;
    assert u.None? <==> forall i :: 0 <= i < |users| ==> users[i].username != body.username;
  }

  /** The rejections come in the source's order: a confirmation mismatch is
      reported whatever the table holds, and a taken email is reported
      before a taken username. */
  lemma RegisterErrorOrder(users: seq<User>, other: seq<User>, body: Schemas.UserCreate)
    requires Schemas.ValidateUserCreate(body).Success?
    ensures body.password != body.confirmPassword ==>
      RegisterRejection(users, body) == RegisterRejection(other, body) == Some(Refused(PasswordMismatch))
    ensures body.password == body.confirmPassword && (exists i :: 0 <= i < |users| && users[i].email == body.email) ==>
      RegisterRejection(users, body) == Some(Refused(EmailTaken))
    ensures (&& body.password == body.confirmPassword
             && (forall i :: 0 <= i < |users| ==> users[i].email != body.email)
             && (exists i :: 0 <= i < |users| && users[i].username == body.username)) ==>
      RegisterRejection(users, body) == Some(Refused(UsernameTaken))
  {
    if exists i :: 0 <= i < |users| && users[i].email == body.email {
      var i :| 0 <= i < |users| && users[i].email == body.email;
      assert ColumnOf(users[i], EmailColumn) == body.email;
    }
    if exists i :: 0 <= i < |users| && users[i].username == body.username {
      var i :| 0 <= i < |users| && users[i].username == body.username;
      assert ColumnOf(users[i], UsernameColumn) == body.username;
    }
  }

  /** A successful registration keeps usernames, emails and ids unique. */
  lemma RegisterPreservesUniqueness(users: seq<User>, body: Schemas.UserCreate, id: nat, ctx: Security.CryptContext)
    requires UniqueUsers(users)
    requires forall i :: 0 <= i < |users| ==> users[i].id != id
    requires RegisterRejection(users, body).None?
    ensures UniqueUsers(users + [NewUser(id, body, ctx)])
  {
    RegisterAcceptedExactly(users, body);
    var after := users + [NewUser(id, body, ctx)];
    forall i, j | 0 <= i < j < |after|
      ensures after[i].id != after[j].id
      ensures after[i].username != after[j].username
      ensures after[i].email != after[j].email
    {
      if j == |users| {
        assert after[i] == users[i];
      } else {
        assert after[i] == users[i] && after[j] == users[j];
      }
    }
  }

  /** Registering the same username or email a second time fails, whatever
      the second password. */
  lemma SecondRegistrationFails(users: seq<User>, first: Schemas.UserCreate, second: Schemas.UserCreate, id: nat, ctx: Security.CryptContext)
    requires RegisterRejection(users, first).None?
    requires second.username == first.username || second.email == first.email
    ensures RegisterRejection(users + [NewUser(id, first, ctx)], second).Some?
  {
    var after := users + [NewUser(id, first, ctx)];
    var last := |users|;
    assert after[last].username == first.username && after[last].email == first.email;
    if second.email == first.email {
      assert ColumnOf(after[last], EmailColumn) == second.email;
    } else {
      assert ColumnOf(after[last], UsernameColumn) == second.username;
    }
  }

  /** The login lookup: the identifier as a username first, and as an email
      only when no username matches. */
  function LookupUser(users: seq<User>, identifier: string): (r: Option<User>)
    ensures r.Some? ==> r.value in users && (r.value.username == identifier || r.value.email == identifier)
    ensures r.None? <==> forall i :: 0 <= i < |users| ==> users[i].username != identifier && users[i].email != identifier
    ensures (exists i :: 0 <= i < |users| && users[i].username == identifier) ==> r.Some? && r.value.username == identifier
  {
    match FindBy(users, UsernameColumn, identifier)
    case Some(u) => Some(u)
    case None =>
      assert forall i :: 0 <= i < |users| ==> users[i].username == ColumnOf(users[i], UsernameColumn);
      assert forall i :: 0 <= i < |users| ==> users[i].email == ColumnOf(users[i], EmailColumn);
      FindBy(users, EmailColumn, identifier)
  }

  /** In a table with unique columns, a user's username finds that user; the
      email finds the user exactly when no other user has that email as
      username (otherwise that other user shadows it). */
  lemma LookupFindsUser(users: seq<User>, k: nat)
    requires UniqueUsers(users)
    requires k < |users|
    ensures LookupUser(users, users[k].username) == Some(users[k])
    ensures LookupUser(users, users[k].email) == Some(users[k]) <==>
      forall i :: 0 <= i < |users| && i != k ==> users[i].username != users[k].email
  {
    var u := users[k];
    FindByUnique(users, UsernameColumn, k);
    var byName := FindBy(users, UsernameColumn, u.email);
    if byName.Some? {
      var i :| 0 <= i < |users| && users[i] == byName.value && users[i].username == u.email;
      assert users[i] == users[k] <==> i == k by {
        assert i != k ==> users[i].id != users[k].id;
      }
      assert i != k ==> users[i].username == u.email;
      assert i == k ==> forall j :: 0 <= j < |users| && j != k ==> users[j].username != users[i].username;
    } else {
      FindByUnique(users, EmailColumn, k);
    }
  }

  /** A key held in column `c` by row `k` alone finds that row. */
  lemma FindByUnique(users: seq<User>, c: Column, k: nat)
    requires UniqueUsers(users) && k < |users|
    ensures FindBy(users, c, ColumnOf(users[k], c)) == Some(users[k])
  {
    var r := FindBy(users, c, ColumnOf(users[k], c));
    var i :| 0 <= i < |users| && users[i] == r.value && ColumnOf(users[i], c) == ColumnOf(users[k], c);
    assert i == k;
  }

  /** The claims `/login` asks to sign for a user. */
  function LoginClaims(u: User): (c: Jwt.Claims)
    ensures c.Keys == {"sub", "username"}
    ensures c["sub"] == Jwt.Str(PyInt.NatToString(u.id)) && c["username"] == Jwt.Str(u.username)
  {
    map["sub" := Jwt.Str(PyInt.NatToString(u.id)), "username" := Jwt.Str(u.username)]
  }

  /** The user table behind `/register` and `/login`. */
  class UserTable {
    var users: seq<User>
    var nextId: nat

    ghost predicate Valid()
      reads this
    {
      && UniqueUsers(users)
      && forall i :: 0 <= i < |users| ==> users[i].id < nextId
    }

    constructor ()
      ensures Valid() && users == [] && nextId == 1
    {
      users := [];
      nextId := 1;
    }

    /** `register_user`: every rejection leaves the table as it was; a
        success appends exactly the new user. */
    method Register(body: Schemas.UserCreate, ctx: Security.CryptContext) returns (r: Result<UserOut, RegisterError>)
      requires Valid()
      modifies this
      ensures Valid()
      ensures RegisterRejection(old(users), body).Some? ==>
        && r == Failure(RegisterRejection(old(users), body).value)
        && users == old(users) && nextId == old(nextId)
      ensures RegisterRejection(old(users), body).None? ==>
        && users == old(users) + [NewUser(old(nextId), body, ctx)]
        && nextId == old(nextId) + 1
        && r == Success(UserOut(old(nextId), body.username, body.email))
    {
      var validated := Schemas.ValidateUserCreate(body);
      if validated.Failure? {
        return Failure(InvalidBody(validated.error));
      }
      if body.password != body.confirmPassword {
        return Failure(Refused(PasswordMismatch));
      }
      if FindBy(users, EmailColumn, body.email).Some? {
        return Failure(Refused(EmailTaken));
      }
      if FindBy(users, UsernameColumn, body.username).Some? {
        return Failure(Refused(UsernameTaken));
      }
      var created := NewUser(nextId, body, ctx);
      RegisterPreservesUniqueness(users, body, nextId, ctx);
      users := users + [created];
      nextId := nextId + 1;
      r := Success(UserOut(created.id, created.username, created.email));
    }

    /** `login_for_access_token`: an unknown identifier and a wrong password
        give the same 401; otherwise a bearer token for the user's id and
        username. `now` is the issue time in seconds. */
    method Login(form: Schemas.UserLogin, ctx: Security.CryptContext, cfg: Security.SecurityConfig,
                 now: int, encode: Jwt.Encoder)
      returns (r: Result<TokenResponse, HttpError>)
      ensures r.Failure? <==>
        || LookupUser(users, form.usernameOrEmail).None?
        || !Security.VerifyPassword(ctx, form.password, LookupUser(users, form.usernameOrEmail).value.hashedPassword)
      ensures r.Failure? ==> r.error == InvalidCredentials
      ensures r.Success? ==>
        var u := LookupUser(users, form.usernameOrEmail).value;
        r.value == TokenResponse(
          encode(Security.AccessClaims(LoginClaims(u), now, cfg.expireMinutes), cfg.secretKey, cfg.algorithm),
          "bearer")
    {
      var user := FindBy(users, UsernameColumn, form.usernameOrEmail);
      if user.None? {
        user := FindBy(users, EmailColumn, form.usernameOrEmail);
      }
      if user.None? || !Security.VerifyPassword(ctx, form.password, user.value.hashedPassword) {
        return Failure(InvalidCredentials);
      }
      var token := Security.CreateAccessToken(cfg, LoginClaims(user.value), now, encode);
      r := Success(TokenResponse(token, "bearer"));
    }
  }
}
