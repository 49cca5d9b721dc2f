/** The `users` table and the decisions of `/auth/register`, `/auth/login`
    and `/auth/me` that do not touch state: the stored user record, the
    password-stripped view that is returned, e-mail lookups with
    `.maybeSingle()` semantics, and the ordered login checks. */
module Accounts {
  import opened Json
  import opened Text
  import opened Crypto
  import opened Http

  const EmailInUse := "Email já está em uso"
  const InvalidCredentials := "Credenciais inválidas"
  const AccountDisabled := "Conta desativada"
  const UserNotFound := "Usuário não encontrado"
  const Created := "Usuário criado com sucesso"
  const LoggedIn := "Login realizado com sucesso"

  /** A row of `users`. Columns whose value comes straight from the request
      body keep the body's JSON value. */
  datatype User = User(
    id: string,
    name: Value,
    email: string,
    password: string,        // the bcrypt digest
    role: Value,
    plan: string,
    company: Value,
    phone: Value,
    isActive: bool,
    emailVerified: bool,
    lastLogin: Option<nat>,
    createdAt: nat)

  /** The user as `select('*')` returns it: every column, the password
      digest included. */
  function UserRow(u: User): (r: Row)
    ensures r.Keys == {"id", "name", "email", "password", "role", "plan", "company", "phone",
                       "is_active", "email_verified", "last_login", "created_at"}
    ensures r["id"] == Str(u.id) && r["email"] == Str(u.email) && r["password"] == Str(u.password)
    ensures r["is_active"] == Bool(u.isActive)
  {
    map[
      "id" := Str(u.id), "name" := u.name, "email" := Str(u.email),
      "password" := Str(u.password), "role" := u.role, "plan" := Str(u.plan),
      "company" := u.company, "phone" := u.phone,
      "is_active" := Bool(u.isActive), "email_verified" := Bool(u.emailVerified),
      "last_login" := (if u.lastLogin.Some? then Num(u.lastLogin.value) else Null),
      "created_at" := Num(u.createdAt)]
  }

  /** `const { password: _, ...rest } = row`: every column but the password. */
  function WithoutPassword(row: Row): (r: Row)
    ensures "password" !in r
    ensures r.Keys == row.Keys - {"password"}
    ensures forall k :: k in r ==> r[k] == row[k]
  {
    row - {"password"}
  }

  /** The user object a response carries: no password column, and that
      user's id, e-mail and every other stored column. */
  function Public(u: User): (r: Row)
    ensures "password" !in r
    ensures r.Keys == UserRow(u).Keys - {"password"}
    ensures r["id"] == Str(u.id) && r["email"] == Str(u.email)
    ensures forall k :: k in r ==> r[k] == UserRow(u)[k]
  {
    WithoutPassword(UserRow(u))
  }

  /** The users a `.eq(...)` lookup on `users` returns, in table order,
      each as often as it is stored. */
  function UsersWhere(users: seq<User>, p: User -> bool): (r: seq<User>)
    ensures forall u {:trigger multiset(r)[u]} :: multiset(r)[u] == if p(u) then multiset(users)[u] else 0
    ensures forall u :: u in r <==> u in users && p(u)
    ensures r == [] <==> forall u :: u in users ==> !p(u)
    ensures |r| <= |users|
  {
    if users == [] then []
    else
      assert users == [users[0]] + users[1..];
      (if p(users[0]) then [users[0]] else []) + UsersWhere(users[1..], p)
  }

  /** `.eq('email', email)`: the users stored under that address. */
  function WithEmail(users: seq<User>, email: string): (r: seq<User>)
    ensures forall u {:trigger multiset(r)[u]} :: multiset(r)[u] == if u.email == email then multiset(users)[u] else 0
    ensures forall u :: u in r <==> u in users && u.email == email
  {
    UsersWhere(users, (u: User) => u.email == email)
  }

  /** `.eq('id', id)`: the users with that id. */
  function WithId(users: seq<User>, id: string): (r: seq<User>)
    ensures forall u {:trigger multiset(r)[u]} :: multiset(r)[u] == if u.id == id then multiset(users)[u] else 0
    ensures forall u :: u in r <==> u in users && u.id == id
  {
    UsersWhere(users, (u: User) => u.id == id)
  }

  /** `.maybeSingle()` / `.single()` as the handlers read them: data only
      when exactly one row matched; zero rows and several rows (an error the
      handlers do not inspect) both leave `data` null. */
  function Single<T>(matches: seq<T>): (r: Option<T>)
    ensures r.Some? <==> |matches| == 1
    ensures r.Some? ==> r.value == matches[0]
  {
    if |matches| == 1 then Some(matches[0]) else None
  }

  predicate UniqueEmails(users: seq<User>) {
    forall i, j :: 0 <= i < j < |users| ==> users[i].email != users[j].email
  }

  predicate UniqueIds(users: seq<User>) {
    forall i, j :: 0 <= i < j < |users| ==> users[i].id != users[j].id
  }

  /** When at most one user satisfies `p`, the single-row lookup finds a user
      exactly when one is stored, and it is that user. */
  lemma {:induction false} SingleFindsUnique(users: seq<User>, p: User -> bool)
    requires forall i, j :: 0 <= i < j < |users| ==> !(p(users[i]) && p(users[j]))
    ensures Single(UsersWhere(users, p)).Some? <==> exists u :: u in users && p(u)
    ensures Single(UsersWhere(users, p)).Some? ==> p(Single(UsersWhere(users, p)).value)
  {
    if users != [] {
      var tail := users[1..];
      assert forall i, j :: 0 <= i < j < |tail| ==> !(p(tail[i]) && p(tail[j])) by {
        forall i, j | 0 <= i < j < |tail| ensures !(p(tail[i]) && p(tail[j])) {
          assert tail[i] == users[i + 1] && tail[j] == users[j + 1];
        }
      }
      SingleFindsUnique(tail, p);
      if p(users[0]) {
        forall u | u in tail ensures !p(u) {
          var k :| 0 <= k < |tail| && tail[k] == u;
          assert users[k + 1] == u;
        }
        assert UsersWhere(users, p) == [users[0]];
      } else {
        assert forall u :: u in users && p(u) ==> u in tail;
      }
    }
  }

  /** With unique e-mails, the lookup by e-mail finds the account stored
      under that address whenever there is one. */
  lemma LookupByEmail(users: seq<User>, email: string)
    requires UniqueEmails(users)
    ensures Single(WithEmail(users, email)).Some? <==> exists u :: u in users && u.email == email
    ensures Single(WithEmail(users, email)).Some? ==> Single(WithEmail(users, email)).value.email == email
  {
    SingleFindsUnique(users, (u: User) => u.email == email);
  }

  /** With unique ids, the lookup by id finds the account with that id
      whenever there is one. */
  lemma LookupById(users: seq<User>, id: string)
    requires UniqueIds(users)
    ensures Single(WithId(users, id)).Some? <==> exists u :: u in users && u.id == id
    ensures Single(WithId(users, id)).Some? ==> Single(WithId(users, id)).value.id == id
  {
    SingleFindsUnique(users, (u: User) => u.id == id);
  }

  /** The record `/auth/register` inserts: lowered e-mail, hashed password,
      `role || 'user'`, plan `free`, active and verified, never logged in.
      Fields the body leaves undefined become `null`. */
  function NewUser(id: string, body: Row, email: string, digest: string, now: nat): (u: User)
    ensures u.id == id && u.email == Lower(email) && u.password == digest
    ensures u.role == (if "role" in body && Truthy(body["role"]) then body["role"] else Str("user"))
    ensures u.plan == "free" && u.isActive && u.emailVerified && u.lastLogin.None?
    ensures u.name == (if "name" in body then body["name"] else Null)
    ensures u.company == (if "company" in body then body["company"] else Null)
    ensures u.phone == (if "phone" in body then body["phone"] else Null)
  {
    User(id, OrNull(Field(body, "name")), Lower(email), digest,
         OrElse(Field(body, "role"), Str("user")), "free",
         OrNull(Field(body, "company")), OrNull(Field(body, "phone")),
         true, true, None, now)
  }

  /** The outcome of the ordered login checks. */
  datatype LoginVerdict =
    | UnknownAccount              // no single user under that address
    | Deactivated                 // found, but `is_active` is false
    | PasswordNotText             // bcrypt.compare throws on a non-string
    | WrongPassword               // bcrypt.compare says no
    | Granted(user: User)

  /** The login decision for the user the lookup found (if any) and the
      submitted password: unknown account first, then the active flag, and
      only then the password. */
  function Decide(found: Option<User>, password: Option<Value>, h: Hasher): (v: LoginVerdict)
    ensures v == UnknownAccount <==> found.None?
    ensures v == Deactivated <==> found.Some? && !found.value.isActive
    ensures v == PasswordNotText <==>
      found.Some? && found.value.isActive && !(password.Some? && password.value.Str?)
    ensures v == WrongPassword <==>
      && found.Some? && found.value.isActive && password.Some? && password.value.Str?
      && !h.compare(password.value.s, found.value.password)
    ensures v.Granted? <==>
      && found.Some? && found.value.isActive
      && password.Some? && password.value.Str?
      && h.compare(password.value.s, found.value.password)
    ensures v.Granted? ==> found == Some(v.user)
  {
    match found
    case None => UnknownAccount
    case Some(u) =>
      if !u.isActive then Deactivated
      else if !(password.Some? && password.value.Str?) then PasswordNotText
      else if !h.compare(password.value.s, u.password) then WrongPassword
      else Granted(u)
  }

  /** The response for a refused login. */
  function Refusal(v: LoginVerdict): (r: Response)
    requires !v.Granted?
    ensures r.Failure?
    ensures v in {UnknownAccount, WrongPassword} ==> r == Failure(401, InvalidCredentials)
    ensures v == Deactivated ==> r == Failure(401, AccountDisabled)
    ensures v == PasswordNotText ==> r == Failure(500, InternalError)
  {
    match v
    case UnknownAccount => Failure(401, InvalidCredentials)
    case Deactivated => Failure(401, AccountDisabled)
    case PasswordNotText => Failure(500, InternalError)
    case WrongPassword => Failure(401, InvalidCredentials)
  }

  /** A deactivated account is refused whatever password is sent, even the
      right one: the active flag is checked before the password. */
  lemma DeactivatedBeforePassword(u: User, password: Option<Value>, h: Hasher)
    requires !u.isActive
    ensures Refusal(Decide(Some(u), password, h)) == Failure(401, AccountDisabled)
  {
  }

  /** An unknown address and a wrong password for a known, active account
      give byte-identical responses, so a login attempt does not reveal
      whether an active account exists. */
  lemma UnknownAndWrongPasswordAlike(u: User, p: string, h: Hasher)
    requires u.isActive && !h.compare(p, u.password)
    ensures Refusal(Decide(None, Some(Str(p)), h)) == Refusal(Decide(Some(u), Some(Str(p)), h))
    ensures Refusal(Decide(None, Some(Str(p)), h)) == Failure(401, InvalidCredentials)
  {
  }

  /** With a sound hasher, the password an account was registered with
      always passes the password check. */
  lemma RegisteredPasswordAccepted(u: User, p: string, h: Hasher)
    requires HasherSound(h) && u.isActive && u.password == h.hash(p)
    ensures Decide(Some(u), Some(Str(p)), h) == Granted(u)
  {
  }

  /** `update({ last_login }).eq('id', id)`: every user with that id gets the
      new timestamp, nothing else changes. */
  function StampLogin(users: seq<User>, id: string, now: nat): (r: seq<User>)
    ensures |r| == |users|
    ensures forall i :: 0 <= i < |users| && users[i].id != id ==> r[i] == users[i]
    ensures forall i :: 0 <= i < |users| && users[i].id == id ==> r[i] == users[i].(lastLogin := Some(now))
  {
    seq(|users|, i requires 0 <= i < |users| =>
      if users[i].id == id then users[i].(lastLogin := Some(now)) else users[i])
  }

  /** Stamping a login keeps ids and e-mails, hence both uniqueness invariants. */
  lemma StampLoginKeepsKeys(users: seq<User>, id: string, now: nat)
    ensures forall i :: 0 <= i < |users| ==>
      StampLogin(users, id, now)[i].id == users[i].id && StampLogin(users, id, now)[i].email == users[i].email
    ensures UniqueIds(users) ==> UniqueIds(StampLogin(users, id, now))
    ensures UniqueEmails(users) ==> UniqueEmails(StampLogin(users, id, now))
  {
  }
}
