/** `UserService` (src/api/user/user.service.ts): the user table with its
    one-ADMIN rule, and login/logout through the session store. */
module Users {
  import opened Common
  import opened Sessions
  import opened Auth
  import opened UserDto

  /** A user row; `password` holds what the create/update hook stored, the
      bcrypt hash of the submitted password. */
  datatype User = User(email: string, password: string, role: Role)

  predicate EmailTaken(rows: map<Id, User>, email: string)
  {
    exists id :: id in rows && rows[id].email == email
  }

  predicate HasAdmin(rows: map<Id, User>)
  {
    exists id :: id in rows && rows[id].role == Admin
  }

  /** At most one row holds the ADMIN role. */
  ghost predicate OneAdmin(rows: map<Id, User>)
  {
    forall a, b :: a in rows && b in rows && rows[a].role == Admin && rows[b].role == Admin ==> a == b
  }

  /** No two rows share an email. */
  ghost predicate UniqueEmails(rows: map<Id, User>)
  {
    forall a, b :: a in rows && b in rows && rows[a].email == rows[b].email ==> a == b
  }

  /** Every ADMIN row of `before` is still there, still ADMIN, in `after`. */
  ghost predicate AdminsKept(before: map<Id, User>, after: map<Id, User>)
  {
    forall id :: id in before && before[id].role == Admin ==> id in after && after[id].role == Admin
  }

  /** The where-clause of `getAllUsers`: `role ? { role } : {}`. */
  function RoleFilter(role: string): (w: Option<string>)
    ensures w.None? <==> role == []
    ensures w.Some? ==> w.value == role
  {
    if role != [] then Some(role) else None
  }

  /** Whether a row satisfies that where-clause. */
  predicate RoleMatches(w: Option<string>, u: User)
  {
    w.None? || RoleName(u.role) == w.value
  }

  /** A role name selects exactly the rows of that role; an empty one
      selects every row; a name that is no role selects none. */
  lemma RoleFilterSelects(role: string, u: User)
    ensures role == [] ==> RoleMatches(RoleFilter(role), u)
    ensures RoleMatches(RoleFilter(RoleName(u.role)), u)
    ensures role !in {"ADMIN", "EDITOR", "VIEWER"} && role != [] ==> !RoleMatches(RoleFilter(role), u)
  {
  }

  /** Adding a non-ADMIN row keeps the one-ADMIN rule. */
  lemma {:induction false} InsertNonAdmin(rows: map<Id, User>, id: Id, u: User)
    requires OneAdmin(rows) && u.role != Admin
    ensures OneAdmin(rows[id := u])
    ensures AdminsKept(rows, rows[id := u]) <==> !(id in rows && rows[id].role == Admin)
  {
    var r := rows[id := u];
    if id in rows && rows[id].role == Admin {
      assert !(id in r && r[id].role == Admin);
    }
  }

  class UserService {
    var users: map<Id, User>
    const sessions: SessionStore
    const jwt: JwtAuthService
    /** bcrypt's `hash` (with its salt folded in) and `compare`. */
    const hash: string -> string
    const compare: (string, string) -> bool

    /** One ADMIN at most; the session store is the one the token service
        checks (both receive the same injected `SessionService`) and keeps
        its per-user bound. */
    ghost predicate Valid()
      reads this, sessions
    {
      OneAdmin(users) && jwt.sessions == sessions && sessions.Valid()
    }

    constructor (sessions: SessionStore, jwt: JwtAuthService,
                 hash: string -> string, compare: (string, string) -> bool)
      requires jwt.sessions == sessions && sessions.Valid()
      ensures Valid() && users == map[]
      ensures this.sessions == sessions && this.jwt == jwt
      ensures this.hash == hash && this.compare == compare
    {
      users := map[];
      this.sessions := sessions;
      this.jwt := jwt;
      this.hash := hash;
      this.compare := compare;
    }

    /** The row `id` exists with this email and the password matches it. */
    ghost predicate Authenticates(id: Id, email: string, password: string)
      reads this
    {
      id in users && users[id].email == email && compare(password, users[id].password)
    }

    /** `addUser`: refused with CONFLICT (and `error: false`) when the email is
        taken; otherwise one row is inserted under the freshly generated key
        `id`. The role comes from the add-user body and so is never ADMIN. */
    method AddUser(dto: AddUserDto, id: Id) returns (reply: Reply)
      requires Valid() && id !in users
      modifies this
      ensures Valid() && AdminsKept(old(users), users)
      ensures UniqueEmails(old(users)) ==> UniqueEmails(users)
      ensures EmailTaken(old(users), dto.email) ==>
        reply == Reply(false, Conflict, UserAlreadyExists) && users == old(users)
      ensures !EmailTaken(old(users), dto.email) ==>
        reply == Reply(false, Created, UserCreated) &&
        users == old(users)[id := User(dto.email, hash(dto.password), dto.role)]
    {
      if EmailTaken(users, dto.email) {
        return Reply(false, Conflict, UserAlreadyExists);
      }
      InsertNonAdmin(users, id, User(dto.email, hash(dto.password), dto.role));
      users := users[id := User(dto.email, hash(dto.password), dto.role)];
      reply := Reply(false, Created, UserCreated);
    }

    /** `createUser` (signup): refused with BADREQUEST (and `error: false`)
        while any ADMIN exists; otherwise the new row is the ADMIN. The email
        is not checked against existing rows, but on an empty table (the only
        one the signup route meets while no ADMIN exists and add-user is
        ADMIN-only) the new row is the only one. */
    method CreateUser(dto: SignupDto, id: Id) returns (reply: Reply)
      requires Valid() && id !in users
      modifies this
      ensures Valid() && AdminsKept(old(users), users)
      ensures old(users) == map[] ==> HasAdmin(users) && UniqueEmails(users)
      ensures HasAdmin(old(users)) ==>
        reply == Reply(false, BadRequest, ActionNotAllowed) && users == old(users)
      ensures !HasAdmin(old(users)) ==>
        reply == Reply(false, Created, UserCreated) &&
        users == old(users)[id := User(dto.email, hash(dto.password), Admin)]
    {
      if HasAdmin(users) {
        return Reply(false, BadRequest, ActionNotAllowed);
      }
      users := users[id := User(dto.email, hash(dto.password), Admin)];
      reply := Reply(false, Created, UserCreated);
    }

    /** `getAllUsers`: the keys of the rows the role filter selects
        (pagination aside). */
    method GetAllUsers(role: string) returns (reply: Reply, found: set<Id>)
      ensures reply == Reply(false, Success, UsersRetrieved)
      ensures forall id :: id in found <==> id in users && (role != [] ==> RoleName(users[id].role) == role)
    {
      var w := RoleFilter(role);
      found := set id | id in users && RoleMatches(w, users[id]);
      reply := Reply(false, Success, UsersRetrieved);
    }

    /** `loginUser`. An unknown email is NOTFOUND and a wrong password
        UN_AUTHORIZED, neither touching the sessions. Otherwise a token is
        signed for `{ userId, role }` of a row with that email (the lookup
        has no ordering, so any such row) and a session is created for it;
        a session error becomes the thrown BADREQUEST. */
    method LoginUser(dto: LoginDto) returns (reply: Reply, token: Option<Token>)
      requires Valid()
      modifies sessions
      ensures Valid()
      ensures reply in {Reply(true, NotFound, UserNotFound), Reply(true, UnAuthorized, InvalidCredentials),
                        Thrown, Reply(false, Success, LoginSuccess)}
      ensures reply == Reply(true, NotFound, UserNotFound) <==> !EmailTaken(users, dto.email)
      ensures reply == Reply(true, UnAuthorized, InvalidCredentials) ==>
        exists id :: id in users && users[id].email == dto.email && !compare(dto.password, users[id].password)
      ensures reply.error ==> token.None?
      ensures reply.status in {NotFound, UnAuthorized} ==> sessions.rows == old(sessions.rows)
      ensures reply == Thrown ==>
        sessions.rows == old(sessions.rows) &&
        exists id :: Authenticates(id, dto.email, dto.password) && CreateFails(old(sessions.rows), sessions.cap, id)
      ensures !reply.error ==>
        exists id :: Authenticates(id, dto.email, dto.password) &&
          !CreateFails(old(sessions.rows), sessions.cap, id) &&
          token == Some(jwt.sign(Identity(id, users[id].role))) &&
          AfterCreate(old(sessions.rows), sessions.rows, sessions.cap, id, token.value) &&
          Live(jwt.sessions.rows, id, token.value)
      ensures UniqueEmails(users) && !reply.error ==>
        forall id :: id in users && users[id].email == dto.email ==>
          token == Some(jwt.sign(Identity(id, users[id].role)))
    {
      if !EmailTaken(users, dto.email) {
        return Reply(true, NotFound, UserNotFound), None;
      }
      var id :| id in users && users[id].email == dto.email;
      if !compare(dto.password, users[id].password) {
        return Reply(true, UnAuthorized, InvalidCredentials), None;
      }
      var t := jwt.CreateToken(Identity(id, users[id].role));
      var created := sessions.CreateSession(id, t);
      if created.error {
        return Thrown, None;
      }
      reply, token := Reply(false, Success, LoginSuccess), Some(t);
    }

    /** `logoutUser`: removes the `(userId, token)` session; when there was
        none the service throws, which reaches the client as BADREQUEST. */
    method LogoutUser(userId: Id, token: Token) returns (reply: Reply)
      requires Valid()
      modifies sessions
      ensures Valid()
      ensures !Live(jwt.sessions.rows, userId, token)
      ensures reply == Thrown <==> !Live(old(sessions.rows), userId, token)
      ensures reply != Thrown ==> reply == Reply(false, Success, LogoutSuccess)
      ensures sessions.rows == WithoutSession(old(sessions.rows), userId, token)
    {
      var deleted := sessions.DeleteSession(userId, token);
      if !deleted {
        return Thrown;
      }
      reply := Reply(false, Success, LogoutSuccess);
    }

    /** `updatePassword`. A missing row makes the password lookup throw; a
        wrong old password is reported before an unchanged one; only then is
        the new password stored, hashed by the update hook. */
    method UpdatePassword(dto: UpdatePasswordDto, userId: Id) returns (reply: Reply)
      requires Valid()
      modifies this
      ensures Valid() && AdminsKept(old(users), users)
      ensures UniqueEmails(old(users)) ==> UniqueEmails(users)
      ensures userId !in old(users) ==> reply == Thrown && users == old(users)
      ensures userId in old(users) && !compare(dto.oldPassword, old(users)[userId].password) ==>
        reply == Reply(true, BadRequest, OldPasswordIncorrect) && users == old(users)
      ensures userId in old(users) && compare(dto.oldPassword, old(users)[userId].password) &&
              dto.oldPassword == dto.newPassword ==>
        reply == Reply(true, BadRequest, OldNewPasswordSame) && users == old(users)
      ensures !reply.error <==>
        userId in old(users) && compare(dto.oldPassword, old(users)[userId].password) &&
        dto.oldPassword != dto.newPassword
      ensures !reply.error ==>
        reply == Reply(false, NoContent, PasswordChanged) &&
        users == old(users)[userId := old(users)[userId].(password := hash(dto.newPassword))]
    {
      if userId !in users {
        return Thrown;
      }
      if !compare(dto.oldPassword, users[userId].password) {
        return Reply(true, BadRequest, OldPasswordIncorrect);
      }
      if dto.oldPassword == dto.newPassword {
        return Reply(true, BadRequest, OldNewPasswordSame);
      }
      users := users[userId := users[userId].(password := hash(dto.newPassword))];
      reply := Reply(false, NoContent, PasswordChanged);
    }

    /** `deleteUser`: NOTFOUND for an unknown key, ACTION_NOT_ALLOWED for the
        ADMIN, otherwise exactly that row goes. */
    method DeleteUser(id: Id) returns (reply: Reply)
      requires Valid()
      modifies this
      ensures Valid() && AdminsKept(old(users), users)
      ensures UniqueEmails(old(users)) ==> UniqueEmails(users)
      ensures id !in old(users) ==> reply == Reply(true, NotFound, UserNotFound) && users == old(users)
      ensures id in old(users) && old(users)[id].role == Admin ==>
        reply == Reply(true, BadRequest, ActionNotAllowed) && users == old(users)
      ensures id in old(users) && old(users)[id].role != Admin ==>
        reply == Reply(false, NoContent, UserDeleted) && users == old(users) - {id}
    {
      if id !in users {
        return Reply(true, NotFound, UserNotFound);
      }
      if users[id].role == Admin {
        return Reply(true, BadRequest, ActionNotAllowed);
      }
      users := users - {id};
      reply := Reply(false, NoContent, UserDeleted);
    }
  }
}
