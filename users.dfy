/** The guards of src/actions/user.ts: login, and the four administration actions
    (list, create, update, delete), each of which admits only a signed-in user whose
    profile row has role 'admin'.

    The users table is a sequence of profile rows; the identity service's accounts
    are a map from account id to what the account was created with. The session,
    the identity service's answers and the store's errors are parameters. */
module Users {
  import opened Domain

  /** A row of the users table (created_at and updated_at are not modelled). The
      role is whatever string was written: the actions do not validate it. */
  datatype UserRow = UserRow(id: Id, email: string, fullName: string, role: string, authUserId: Id)

  /** An identity-service account, as `auth.admin.createUser` receives it. */
  datatype Account = Account(email: string, fullName: string, role: string)

  /** `auth.getUser()`: no user, or the signed-in account's id. */
  datatype Session = NoSession | SignedIn(authId: Id)

  /** The profile rows of one account. */
  function RowsFor(users: seq<UserRow>, authId: Id): (rows: seq<UserRow>)
    ensures forall r :: r in rows <==> r in users && r.authUserId == authId
    ensures IsSubsequence(rows, users)
  {
    if users == [] then []
    else
      var rest := RowsFor(users[1..], authId);
      if users[0].authUserId == authId then
        [users[0]] + rest
      else
        assert rest == [] || rest[0] != users[0];
        assert users[0] !in rest;
        rest
  }

  /** Each selected row appears as often as in the table, and a row of another
      account not at all. */
  lemma {:induction false} RowsForKeepsMultiplicity(users: seq<UserRow>, authId: Id, row: UserRow)
    ensures multiset(RowsFor(users, authId))[row] == if row.authUserId == authId then multiset(users)[row] else 0
  {
    if users != [] {
      assert users == [users[0]] + users[1..];
      RowsForKeepsMultiplicity(users[1..], authId, row);
    }
  }

  /** `.from('users').select(...).eq('auth_user_id', authId).single()`: the profile
      when exactly one row has that account id, and nothing (an error, whose data is
      null) otherwise. */
  function ProfileOf(users: seq<UserRow>, authId: Id): (p: Option<UserRow>)
    ensures p.Some? <==> |RowsFor(users, authId)| == 1
    ensures p.Some? ==> p.value in users && p.value.authUserId == authId
  {
    var rows := RowsFor(users, authId);
    if |rows| == 1 then
      assert rows[0] in rows;
      Some(rows[0])
    else None
  }

  /** `profile?.role === 'admin'`. */
  predicate IsAdmin(profile: Option<UserRow>)
  {
    profile.Some? && profile.value.role == "admin"
  }

  /** The admin check that opens every administration action. */
  datatype Gate = NoUser | NotAdmin | Admitted(actor: UserRow)

  function AdminGate(session: Session, users: seq<UserRow>): (g: Gate)
    ensures g == NoUser <==> session.NoSession?
    ensures g.Admitted? <==> session.SignedIn? && IsAdmin(ProfileOf(users, session.authId))
    ensures g.Admitted? ==> g.actor.role == "admin" && g.actor in users && g.actor.authUserId == session.authId
  {
    match session
    case NoSession => NoUser
    case SignedIn(authId) =>
      var profile := ProfileOf(users, authId);
      if IsAdmin(profile) then Admitted(profile.value) else NotAdmin
  }

  /** A form field JavaScript treats as truthy: present and not the empty string. */
  predicate Filled(field: Option<string>)
  {
    field.Some? && field.value != ""
  }

  // ---------------------------------------------------------------- login

  /** What `signInWithPassword` answers. */
  datatype SignInAnswer = SignInError(message: string) | SignInWithoutUser | SignInAs(authId: Id)

  /** `loginAction` either fails with a message or redirects. */
  datatype LoginOutcome = LoginFailed(message: string) | RedirectTo(path: string)

  const MissingCredentials := "Email dan password harus diisi"

  /** `loginAction(formData)`. */
  function Login(email: Option<string>, password: Option<string>, answer: SignInAnswer, users: seq<UserRow>): LoginOutcome
  {
    if !Filled(email) || !Filled(password) then LoginFailed(MissingCredentials)
    else match answer
      case SignInError(message) => LoginFailed(message)
      case SignInWithoutUser => LoginFailed("Gagal login")
      case SignInAs(authId) =>
        var profile := ProfileOf(users, authId);
        if profile.None? then LoginFailed("Gagal mengambil data user")
        else if profile.value.role == "admin" then RedirectTo("/admin")
        else RedirectTo("/")
  }

  /** A missing email or password fails before the identity service is asked: the
      outcome is the same whatever it would have answered. */
  lemma LoginNeedsBothFields(email: Option<string>, password: Option<string>, a1: SignInAnswer, a2: SignInAnswer,
                             users: seq<UserRow>)
    requires !Filled(email) || !Filled(password)
    ensures Login(email, password, a1, users) == Login(email, password, a2, users) == LoginFailed(MissingCredentials)
  {
  }

  /** A login that succeeds redirects admins to /admin and everyone else to /; it
      succeeds exactly when the account has one profile row. */
  lemma LoginRedirectsByRole(email: string, password: string, authId: Id, users: seq<UserRow>)
    requires email != "" && password != ""
    ensures var o := Login(Some(email), Some(password), SignInAs(authId), users);
            (o.RedirectTo? <==> |RowsFor(users, authId)| == 1)
            && (o.RedirectTo? ==> (o.path == "/admin" <==> ProfileOf(users, authId).value.role == "admin"))
            && (o.RedirectTo? ==> o.path in {"/admin", "/"})
  {
  }

  // ------------------------------------------------------- administration

  /** `{ success: false, message }`, `{ success: true, data }` for the listing, or
      `{ success: true, message }`. */
  datatype Reply = Failure(message: string) | Listed(rows: seq<UserRow>) | Done(message: string)

  const Unauthorized := "Unauthorized"
  const ListRefused := "Hanya admin yang dapat mengakses data ini"
  const CreateRefused := "Hanya admin yang dapat menambah user"
  const UpdateRefused := "Hanya admin yang dapat mengupdate user"
  const DeleteRefused := "Hanya admin yang dapat menghapus user"
  const MissingFields := "Semua field harus diisi"
  const SelfDeletion := "Tidak dapat menghapus akun sendiri"

  /** The reply of a failed admin check, `refusal` being the action's own message. */
  function GateFailure(g: Gate, refusal: string): Reply
    requires !g.Admitted?
  {
    if g.NoUser? then Failure(Unauthorized) else Failure(refusal)
  }

  /** `getAllUsers()`. The listing is the table as the store returns it. */
  function ListSpec(session: Session, users: seq<UserRow>, fetchError: Option<string>): Reply
  {
    var g := AdminGate(session, users);
    if !g.Admitted? then GateFailure(g, ListRefused)
    else if fetchError.Some? then Failure(fetchError.value)
    else Listed(users)
  }

  /** `createUser(formData)`: the identity service creates an account under a new id. */
  function CreateSpec(session: Session, users: seq<UserRow>, accounts: map<Id, Account>,
                      email: Option<string>, password: Option<string>, fullName: Option<string>, role: Option<string>,
                      created: InsertOutcome): (map<Id, Account>, Reply)
  {
    var g := AdminGate(session, users);
    if !g.Admitted? then (accounts, GateFailure(g, CreateRefused))
    else if !Filled(email) || !Filled(password) || !Filled(fullName) || !Filled(role) then (accounts, Failure(MissingFields))
    else match created
      case InsertFailed(message) => (accounts, Failure(message))
      case Inserted(authId, _) =>
        (accounts[authId := Account(email.value, fullName.value, role.value)], Done("User berhasil ditambahkan"))
  }

  /** `.update({ full_name, role }).eq('id', userId)`: every row with that id gets the
      new name and role, and nothing else changes. */
  function WithNameAndRole(users: seq<UserRow>, userId: Id, fullName: string, role: string): (r: seq<UserRow>)
    ensures |r| == |users|
    ensures forall i :: 0 <= i < |users| ==>
              if users[i].id == userId then
                r[i] == users[i].(fullName := fullName, role := role)
              else r[i] == users[i]
  {
    if users == [] then []
    else
      var head := if users[0].id == userId then users[0].(fullName := fullName, role := role) else users[0];
      [head] + WithNameAndRole(users[1..], userId, fullName, role)
  }

  /** `updateUser(userId, formData)`. */
  function UpdateSpec(session: Session, users: seq<UserRow>, userId: Id, fullName: Option<string>, role: Option<string>,
                      updateError: Option<string>): (seq<UserRow>, Reply)
  {
    var g := AdminGate(session, users);
    if !g.Admitted? then (users, GateFailure(g, UpdateRefused))
    else if !Filled(fullName) || !Filled(role) then (users, Failure(MissingFields))
    else if updateError.Some? then (users, Failure(updateError.value))
    else (WithNameAndRole(users, userId, fullName.value, role.value), Done("User berhasil diupdate"))
  }

  /** `deleteUser(userId, authUserId)`: the account `authUserId` is deleted from the
      identity service. */
  function DeleteSpec(session: Session, users: seq<UserRow>, accounts: map<Id, Account>, userId: Id, authUserId: Id,
                      deleteError: Option<string>): (map<Id, Account>, Reply)
  {
    var g := AdminGate(session, users);
    if !g.Admitted? then (accounts, GateFailure(g, DeleteRefused))
    else if g.actor.id == userId then (accounts, Failure(SelfDeletion))
    else if deleteError.Some? then (accounts, Failure(deleteError.value))
    else (accounts - {authUserId}, Done("User berhasil dihapus"))
  }

  class UserAdmin {
    var users: seq<UserRow>
    var accounts: map<Id, Account>

    constructor (users: seq<UserRow>, accounts: map<Id, Account>)
      ensures this.users == users && this.accounts == accounts
    {
      this.users := users;
      this.accounts := accounts;
    }

    /** `getAllUsers()`: reads only. */
    method GetAllUsers(session: Session, fetchError: Option<string>) returns (r: Reply)
      ensures r == ListSpec(session, users, fetchError)
      ensures r.Listed? ==> r.rows == users && AdminGate(session, users).Admitted?
    {
      var g := AdminGate(session, users);
      if g.NoUser? {
        return Failure(Unauthorized);
      }
      if g.NotAdmin? {
        return Failure(ListRefused);
      }
      if fetchError.Some? {
        return Failure(fetchError.value);
      }
      return Listed(users);
    }

    /** `createUser(formData)`. The identity service's answer is `created`; a new
        account gets an id no account has. */
    method CreateUser(session: Session, email: Option<string>, password: Option<string>, fullName: Option<string>,
                      role: Option<string>, created: InsertOutcome) returns (r: Reply)
      requires created.Inserted? ==> created.id !in accounts
      modifies this`accounts
      ensures (accounts, r) == CreateSpec(session, users, old(accounts), email, password, fullName, role, created)
    {
      var g := AdminGate(session, users);
      if g.NoUser? {
        return Failure(Unauthorized);
      }
      if g.NotAdmin? {
        return Failure(CreateRefused);
      }
      if !Filled(email) || !Filled(password) || !Filled(fullName) || !Filled(role) {
        return Failure(MissingFields);
      }
      if created.InsertFailed? {
        return Failure(created.message);
      }
      accounts := accounts[created.id := Account(email.value, fullName.value, role.value)];
      return Done("User berhasil ditambahkan");
    }

    /** `updateUser(userId, formData)`. */
    method UpdateUser(session: Session, userId: Id, fullName: Option<string>, role: Option<string>,
                      updateError: Option<string>) returns (r: Reply)
      modifies this`users
      ensures (users, r) == UpdateSpec(session, old(users), userId, fullName, role, updateError)
    {
      var g := AdminGate(session, users);
      if g.NoUser? {
        return Failure(Unauthorized);
      }
      if g.NotAdmin? {
        return Failure(UpdateRefused);
      }
      if !Filled(fullName) || !Filled(role) {
        return Failure(MissingFields);
      }
      if updateError.Some? {
        return Failure(updateError.value);
      }
      users := WithNameAndRole(users, userId, fullName.value, role.value);
      return Done("User berhasil diupdate");
    }

    /** `deleteUser(userId, authUserId)`. */
    method DeleteUser(session: Session, userId: Id, authUserId: Id, deleteError: Option<string>) returns (r: Reply)
      modifies this`accounts
      ensures (accounts, r) == DeleteSpec(session, users, old(accounts), userId, authUserId, deleteError)
    {
      var g := AdminGate(session, users);
      if g.NoUser? {
        return Failure(Unauthorized);
      }
      if g.NotAdmin? {
        return Failure(DeleteRefused);
      }
      if g.actor.id == userId {
        return Failure(SelfDeletion);
      }
      if deleteError.Some? {
        return Failure(deleteError.value);
      }
      accounts := accounts - {authUserId};
      return Done("User berhasil dihapus");
    }
  }

  /** Without a session every administration action answers 'Unauthorized' and
      changes nothing, whatever else it was given. */
  lemma NoSessionIsUnauthorized(users: seq<UserRow>, accounts: map<Id, Account>, fetchError: Option<string>,
                                email: Option<string>, password: Option<string>, fullName: Option<string>,
                                role: Option<string>, created: InsertOutcome, userId: Id, authUserId: Id,
                                storeError: Option<string>)
    ensures ListSpec(NoSession, users, fetchError) == Failure(Unauthorized)
    ensures CreateSpec(NoSession, users, accounts, email, password, fullName, role, created) == (accounts, Failure(Unauthorized))
    ensures UpdateSpec(NoSession, users, userId, fullName, role, storeError) == (users, Failure(Unauthorized))
    ensures DeleteSpec(NoSession, users, accounts, userId, authUserId, storeError) == (accounts, Failure(Unauthorized))
  {
  }

  /** A signed-in user who is not an admin (no profile row, several rows, or a role
      other than 'admin') gets each action's own refusal and changes nothing, even
      when the form is incomplete: the role is checked before the fields. */
  lemma NonAdminIsRefused(authId: Id, users: seq<UserRow>, accounts: map<Id, Account>, fetchError: Option<string>,
                          email: Option<string>, password: Option<string>, fullName: Option<string>,
                          role: Option<string>, created: InsertOutcome, userId: Id, authUserId: Id,
                          storeError: Option<string>)
    requires !IsAdmin(ProfileOf(users, authId))
    ensures ListSpec(SignedIn(authId), users, fetchError) == Failure(ListRefused)
    ensures CreateSpec(SignedIn(authId), users, accounts, email, password, fullName, role, created)
            == (accounts, Failure(CreateRefused))
    ensures UpdateSpec(SignedIn(authId), users, userId, fullName, role, storeError) == (users, Failure(UpdateRefused))
    ensures DeleteSpec(SignedIn(authId), users, accounts, userId, authUserId, storeError)
            == (accounts, Failure(DeleteRefused))
  {
  }

  /** For an admin, creating a user needs all four fields; with one missing nothing
      is created, whatever the identity service would answer. */
  lemma CreateNeedsAllFields(session: Session, users: seq<UserRow>, accounts: map<Id, Account>,
                             email: Option<string>, password: Option<string>, fullName: Option<string>,
                             role: Option<string>, created: InsertOutcome)
    requires AdminGate(session, users).Admitted?
    ensures var (after, r) := CreateSpec(session, users, accounts, email, password, fullName, role, created);
            (r.Done? <==> Filled(email) && Filled(password) && Filled(fullName) && Filled(role) && created.Inserted?)
            && (r.Done? ==> after == accounts[created.id := Account(email.value, fullName.value, role.value)])
            && (!r.Done? ==> after == accounts)
  {
  }

  /** An accepted update changes the name and the role of row `userId` and no other
      field of any row; an admin's update with a missing field changes nothing. */
  lemma UpdateChangesOnlyNameAndRole(session: Session, users: seq<UserRow>, userId: Id, fullName: Option<string>,
                                     role: Option<string>, updateError: Option<string>)
    requires AdminGate(session, users).Admitted?
    ensures var (after, r) := UpdateSpec(session, users, userId, fullName, role, updateError);
            (r.Done? <==> Filled(fullName) && Filled(role) && updateError.None?)
            && |after| == |users|
            && (forall i :: 0 <= i < |users| ==>
                  after[i].id == users[i].id && after[i].email == users[i].email
                  && after[i].authUserId == users[i].authUserId
                  && (users[i].id != userId || !r.Done? ==> after[i] == users[i])
                  && (users[i].id == userId && r.Done? ==>
                        after[i].fullName == fullName.value && after[i].role == role.value))
  {
  }

  /** An admin cannot delete their own row, whatever account id is passed with it. */
  lemma DeleteRefusesSelf(session: Session, users: seq<UserRow>, accounts: map<Id, Account>, authUserId: Id,
                          deleteError: Option<string>)
    requires AdminGate(session, users).Admitted?
    ensures var actor := AdminGate(session, users).actor;
            DeleteSpec(session, users, accounts, actor.id, authUserId, deleteError) == (accounts, Failure(SelfDeletion))
  {
  }

  /** A delete reports success exactly when an admin asked to delete someone else's
      row and the identity service reported no error; then that account, and only
      it, is gone. */
  lemma DeleteSucceedsOnlyWithoutError(session: Session, users: seq<UserRow>, accounts: map<Id, Account>, userId: Id,
                                       authUserId: Id, deleteError: Option<string>)
    ensures var (after, r) := DeleteSpec(session, users, accounts, userId, authUserId, deleteError);
            (r.Done? <==> AdminGate(session, users).Admitted? && AdminGate(session, users).actor.id != userId
                          && deleteError.None?)
            && (r.Done? ==> authUserId !in after
                            && forall k :: k in accounts && k != authUserId ==> k in after && after[k] == accounts[k])
            && (!r.Done? ==> after == accounts)
  {
  }

  /** The self-deletion guard compares row ids only: the account that is deleted is
      the `authUserId` passed alongside, which the action does not tie to `userId`.
      An admin passing another row's id with their own account id deletes their own
      account. */
  lemma SelfGuardComparesRowIdsOnly(session: Session, users: seq<UserRow>, accounts: map<Id, Account>, userId: Id)
    requires AdminGate(session, users).Admitted?
    requires userId != AdminGate(session, users).actor.id
    ensures var own := AdminGate(session, users).actor.authUserId;
            var (after, r) := DeleteSpec(session, users, accounts, userId, own, None);
            r.Done? && own !in after
  {
  }
}
