/** src/app/api/auth/setup/route.ts: the one-time creation of the admin
    account. The user collection is the sequence `UserStore.users`; only the
    fields the handler writes are kept. */
module SetupRoute {
  import opened JsValues
  import opened Http
  import Text

  datatype User = User(email: string, password: string, name: string, role: string)

  /** The fields POST reads from `request.json()`. */
  datatype SetupBody = SetupBody(email: Option<string>, password: Option<string>, name: Option<string>)

  /** The body of the 201 reply: a message and the email as it was sent. */
  datatype Created = Created(message: string, email: string)

  const AdminRole := "admin"
  const DefaultName := "Admin User"
  const AdminExistsMessage := "Admin user already exists. Use login page to access dashboard."
  const RequiredMessage := "Email and password are required"
  const CreatedMessage := "Admin user created successfully! You can now login."

  /** `User.findOne({ role: 'admin' })` finds something. */
  predicate HasAdmin(users: seq<User>) {
    exists i :: 0 <= i < |users| && users[i].role == AdminRole
  }

  /** The number of admin accounts. */
  function AdminCount(users: seq<User>): (n: nat)
    ensures n <= |users|
    ensures n == 0 <==> !HasAdmin(users)
  {
    if users == [] then 0
    else
      var rest := AdminCount(users[1..]);
      assert HasAdmin(users) <==> users[0].role == AdminRole || HasAdmin(users[1..]) by {
        if HasAdmin(users[1..]) {
          var i :| 0 <= i < |users[1..]| && users[1..][i].role == AdminRole;
          assert users[i + 1].role == AdminRole;
        }
        if HasAdmin(users) && users[0].role != AdminRole {
          var i :| 0 <= i < |users| && users[i].role == AdminRole;
          assert users[1..][i - 1].role == AdminRole;
        }
      }
      (if users[0].role == AdminRole then 1 else 0) + rest
  }

  lemma {:induction false} AdminCountAppend(users: seq<User>, u: User)
    ensures AdminCount(users + [u]) == AdminCount(users) + (if u.role == AdminRole then 1 else 0)
  {
    if users != [] {
      assert (users + [u])[1..] == users[1..] + [u];
      AdminCountAppend(users[1..], u);
    }
  }

  /** The account a valid request creates: the email lowered, the name
      defaulted, the role fixed. */
  function NewAdmin(b: SetupBody): (u: User)
    requires Truthy(b.email) && Truthy(b.password)
    ensures u.role == AdminRole && u.password == b.password.value
    ensures Text.HasNoUpper(u.email) && Text.EqualsIgnoreCase(u.email, b.email.value)
    ensures |u.email| == |b.email.value|
    ensures Truthy(b.name) ==> u.name == b.name.value
    ensures !Truthy(b.name) ==> u.name == DefaultName
  {
    Text.ToLowerFacts(b.email.value);
    User(Text.ToLower(b.email.value), b.password.value, OrElse(b.name, DefaultName), AdminRole)
  }

  class UserStore {
    var users: seq<User>

    /** There is never more than one admin account. */
    ghost predicate Valid()
      reads this
    {
      AdminCount(users) <= 1
    }

    constructor ()
      ensures Valid() && users == []
    {
      users := [];
    }

    /** POST: an existing admin answers before the body is read; then the
        body, the required fields, and the creation. */
    method Post(body: Option<SetupBody>) returns (reply: Reply<Created>)
      requires Valid()
      modifies this
      ensures Valid()
      ensures HasAdmin(old(users)) ==> reply == Error(400, AdminExistsMessage) && users == old(users)
      ensures !HasAdmin(old(users)) && body.None? ==> reply == Error(500, InternalErrorMessage) && users == old(users)
      ensures !HasAdmin(old(users)) && body.Some? && (!Truthy(body.value.email) || !Truthy(body.value.password)) ==>
        reply == Error(400, RequiredMessage) && users == old(users)
      ensures !HasAdmin(old(users)) && body.Some? && Truthy(body.value.email) && Truthy(body.value.password) ==>
        && users == old(users) + [NewAdmin(body.value)]
        && reply == Ok(201, Created(CreatedMessage, body.value.email.value))
      ensures reply.Ok? <==> !HasAdmin(old(users)) && HasAdmin(users)
    {
      if HasAdmin(users) {
        return Error(400, AdminExistsMessage);
      }
      if body.None? {
        return Error(500, InternalErrorMessage);
      }
      var b := body.value;
      if !Truthy(b.email) || !Truthy(b.password) {
        return Error(400, RequiredMessage);
      }
      var admin := User(Text.ToLower(b.email.value), b.password.value, OrElse(b.name, DefaultName), AdminRole);
      AdminCountAppend(users, admin);
      users := users + [admin];
      reply := Ok(201, Created(CreatedMessage, b.email.value));
    }
  }

  /** Setup runs once: a second request, whatever its body, is refused and
      leaves the single admin in place. */
  method SetupTwice(first: SetupBody, second: Option<SetupBody>)
    returns (r1: Reply<Created>, r2: Reply<Created>, admins: nat)
    requires Truthy(first.email) && Truthy(first.password)
    ensures r1 == Ok(201, Created(CreatedMessage, first.email.value))
    ensures r2 == Error(400, AdminExistsMessage)
    ensures admins == 1
  {
    var store := new UserStore();
    r1 := store.Post(Some(first));
    r2 := store.Post(second);
    admins := AdminCount(store.users);
  }
}
