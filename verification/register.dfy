/** `POST /api/register`: creates the auth account, then the `users` row,
    then the `startups` row, undoing the earlier steps when a later one
    fails, and finally asks for the guardian e-mail. */
module RegisterRoute {
  import opened Common
  import opened Text
  import opened Store

  /** The JSON body, one entry per field the route reads; `None` is a field
      that is missing or null. */
  datatype RegisterBody = RegisterBody(
    name: Option<string>, age: Option<string>, email: Option<string>, password: Option<string>,
    phone: Option<string>, address: Option<string>, parentName: Option<string>,
    parentEmail: Option<string>, companyName: Option<string>, description: Option<string>)

  /** The nine fields that must be present and non-empty; `description` is
      optional. */
  predicate HasRequiredFields(b: RegisterBody) {
    && Truthy(b.name) && Truthy(b.age) && Truthy(b.email) && Truthy(b.password) && Truthy(b.phone)
    && Truthy(b.address) && Truthy(b.parentName) && Truthy(b.parentEmail) && Truthy(b.companyName)
  }

  /** What `auth.admin.createUser` answered: an error, no user, or the new
      account's id. */
  datatype AuthAnswer = AuthError(message: string) | NoUser | CreatedUser(id: string)

  const MissingFieldsError := "Missing required fields"
  const NoAccountError := "Failed to create user account"
  const UserInsertError := "Failed to save user information: "
  const StartupInsertError := "Failed to save startup information: "

  function NewAccount(b: RegisterBody): AuthAccount
    requires HasRequiredFields(b)
  {
    AuthAccount(b.email.value, b.password.value, b.name.value, ParseInt(b.age.value))
  }

  /** The inserted `users` row; the table's defaults supply the guardian
      flag, the KYC status and the creation time. */
  function NewUser(id: string, b: RegisterBody, now: int): UserRow
    requires HasRequiredFields(b)
  {
    UserRow(id, b.name.value, ParseInt(b.age.value), b.phone.value, b.address.value,
            b.parentName.value, b.parentEmail.value, false, NotSubmitted, now)
  }

  /** The inserted `startups` row; an empty description is stored as null. */
  function NewStartup(startupId: string, userId: string, b: RegisterBody): StartupRow
    requires HasRequiredFields(b)
  {
    StartupRow(startupId, userId, b.companyName.value,
               if Truthy(b.description) then b.description else None, false, None, None)
  }

  /** The route. `usersError` and `startupsError` are the errors the two
      inserts answer with, `startupId` the id the table generates and `now`
      the creation time. Whether the guardian e-mail request succeeds does
      not reach the reply, so it is not a parameter. */
  function Register(s: Store, body: RegisterBody, answer: AuthAnswer,
                    usersError: Option<string>, startupsError: Option<string>,
                    startupId: string, now: int): (o: Outcome<string>)
    ensures !HasRequiredFields(body) ==> o == Outcome(s, Failure(400, MissingFieldsError), [])
    ensures HasRequiredFields(body) && answer.AuthError? ==>
      o == Outcome(s, Failure(400, answer.message), [CreateAuthUser(body.email.value)])
    ensures o.reply.Success? <==>
      HasRequiredFields(body) && answer.CreatedUser? && usersError.None? && startupsError.None?
    ensures o.reply.Success? ==> (
      && o.reply.body == answer.id
      && o.store.auth == s.auth[answer.id := NewAccount(body)]
      && o.store.users == s.users + [NewUser(answer.id, body, now)]
      && o.store.startups == s.startups + [NewStartup(startupId, answer.id, body)])
    ensures o.reply.Failure? && HasRequiredFields(body) && answer.CreatedUser? ==> (
      && answer.id !in o.store.auth && o.store.startups == s.startups
      && (forall u :: u in o.store.users ==> u in s.users))
    ensures o.reply.Failure? ==> o.store.auth.Keys <= s.auth.Keys
    ensures (exists id :: RequestParentEmail(id) in o.calls) <==> o.reply.Success?
    ensures o.store.kycDocs == s.kycDocs && o.store.parentTokens == s.parentTokens && o.store.blobs == s.blobs
  {
    if !HasRequiredFields(body) then Outcome(s, Failure(400, MissingFieldsError), [])
    else
      var create := CreateAuthUser(body.email.value);
      match answer
      case AuthError(message) => Outcome(s, Failure(400, message), [create])
      case NoUser => Outcome(s, Failure(500, NoAccountError), [create])
      case CreatedUser(id) =>
        var withAccount := s.(auth := s.auth[id := NewAccount(body)]);
        if usersError.Some? then
          Outcome(s.(auth := s.auth - {id}), Failure(500, UserInsertError + usersError.value),
                  [create, InsertRow(Users), DeleteAuthUser(id)])
        else
          var withUser := withAccount.(users := s.users + [NewUser(id, body, now)]);
          if startupsError.Some? then
            var users := DeleteWhere(withUser.users, (u: UserRow) => u.id == id);
            Outcome(s.(auth := s.auth - {id}, users := users),
                    Failure(500, StartupInsertError + startupsError.value),
                    [create, InsertRow(Users), InsertRow(Startups), DeleteRows(Users), DeleteAuthUser(id)])
          else
            Outcome(withUser.(startups := s.startups + [NewStartup(startupId, id, body)]), Success(id),
                    [create, InsertRow(Users), InsertRow(Startups), RequestParentEmail(id)])
  }

  /** The id the auth service hands out is not taken. */
  predicate FreshAccount(s: Store, answer: AuthAnswer) {
    answer.CreatedUser? ==> answer.id !in s.auth
  }

  /** No orphan: on a store where every row has its account, a registration
      that fails at any step leaves the store exactly as it was. */
  lemma RegisterFailureLeavesNoTrace(s: Store, body: RegisterBody, answer: AuthAnswer,
                                     usersError: Option<string>, startupsError: Option<string>,
                                     startupId: string, now: int)
    requires Linked(s) && FreshAccount(s, answer)
    ensures Register(s, body, answer, usersError, startupsError, startupId, now).reply.Failure?
            ==> Register(s, body, answer, usersError, startupsError, startupId, now).store == s
  {
    if HasRequiredFields(body) && answer.CreatedUser? && usersError.None? && startupsError.Some? {
      var id := answer.id;
      DeleteAppended(s.users, [NewUser(id, body, now)], (u: UserRow) => u.id == id);
      assert s.auth - {id} == s.auth;
    } else if answer.CreatedUser? {
      assert s.auth - {answer.id} == s.auth;
    }
  }

  /** A successful registration leaves exactly one `users` row and one
      `startups` row for the new account, and every row still has its
      account. */
  lemma RegisterSuccessRows(s: Store, body: RegisterBody, answer: AuthAnswer,
                            usersError: Option<string>, startupsError: Option<string>,
                            startupId: string, now: int)
    requires Linked(s) && FreshAccount(s, answer)
    ensures Linked(Register(s, body, answer, usersError, startupsError, startupId, now).store)
    ensures Register(s, body, answer, usersError, startupsError, startupId, now).reply.Success? ==>
      && |Filter(Register(s, body, answer, usersError, startupsError, startupId, now).store.users,
                 (u: UserRow) => u.id == answer.id)| == 1
      && |Filter(Register(s, body, answer, usersError, startupsError, startupId, now).store.startups,
                 (r: StartupRow) => r.userId == answer.id)| == 1
  {
    var o := Register(s, body, answer, usersError, startupsError, startupId, now);
    RegisterFailureLeavesNoTrace(s, body, answer, usersError, startupsError, startupId, now);
    if o.reply.Success? {
      var id := answer.id;
      var isUser := (u: UserRow) => u.id == id;
      var isStartup := (r: StartupRow) => r.userId == id;
      FilterAppend(s.users, [NewUser(id, body, now)], isUser);
      FilterNone(s.users, isUser);
      FilterAppend(s.startups, [NewStartup(startupId, id, body)], isStartup);
      FilterNone(s.startups, isStartup);
    }
  }

  /** Presence is all the route checks of the age: any decimal age, in the
      13 to 17 range or not, is stored as the number `parseInt` reads. */
  lemma RegisterStoresAnyAge(s: Store, body: RegisterBody, id: string, startupId: string, now: int,
                             n: nat, rest: string)
    requires HasRequiredFields(body)
    requires body.age == Some(Decimal(n) + rest)
    requires rest == [] || !IsDigit(rest[0])
    requires n == 0 && rest != [] ==> rest[0] != 'x' && rest[0] != 'X'
    ensures Register(s, body, CreatedUser(id), None, None, startupId, now).reply == Success(id)
    ensures NewUser(id, body, now).age == Some(n)
  {
    ParseIntDecimal(n, rest);
  }
}
