/**
 * The local credential store: a table of users and a "current user" slot,
 * both kept in the browser's key-value storage under two fixed keys.
 *
 * Storage is a map from key to entry; serialising to and parsing from JSON
 * is taken to be the identity, so an entry holds the typed value itself.
 * Every mutator reads the user list, changes one record and writes the
 * whole list back, exactly as the store does.
 */
module AuthStorage {
  import opened Wrappers
  import opened Text

  const USERS_KEY: string := "pk_system_users"
  const CURRENT_USER_KEY: string := "pk_system_current_user"

  /** The record the bootstrap step creates when the user table is empty. */
  const DEFAULT_ADMIN_NOME: string := "Administrador"
  const DEFAULT_ADMIN_EMAIL: string := "admin@exemplo.com"
  const DEFAULT_ADMIN_SENHA: string := "admin123"

  datatype Role = Pendente | Usuario | Premium | Admin

  /** A user as handed out by the store: the password is not part of it. */
  datatype User = User(id: string, nome: string, email: string, role: Role)

  /** A user as kept in the table, password included. */
  datatype StoredUser = StoredUser(id: string, nome: string, email: string, senha: string, role: Role)

  /** What a storage key holds once its JSON text is parsed. */
  datatype Entry = UsersList(users: seq<StoredUser>) | CurrentUserRecord(user: User)

  /** The errors the store throws, each with the message it carries. */
  datatype AuthError =
    | EmailAlreadyRegistered
    | EmailNotRegistered
    | IncorrectPassword
    | EmailInUseByOther
    | IncorrectCurrentPassword
  {
    function Message(): string {
      match this
      case EmailAlreadyRegistered => "Este email já está registrado"
      case EmailNotRegistered => "Email não registrado"
      case IncorrectPassword => "Senha incorreta"
      case EmailInUseByOther => "Este email já está em uso por outro usuário"
      case IncorrectCurrentPassword => "Senha atual incorreta"
    }
  }

  /** The object spread `{ senha: _, ...rest }`: every field but the password. */
  function WithoutPassword(u: StoredUser): (r: User)
    ensures r.id == u.id && r.nome == u.nome && r.email == u.email && r.role == u.role
  {
    User(u.id, u.nome, u.email, u.role)
  }

  /** What leaves the store without a password does not depend on the password. */
  lemma WithoutPasswordIgnoresSenha(u: StoredUser, senha: string)
    ensures WithoutPassword(u.(senha := senha)) == WithoutPassword(u)
  {
  }

  /** Emails are compared after lower-casing both sides. */
  predicate SameEmail(a: string, b: string) {
    ToLower(a) == ToLower(b)
  }

  /** Position of the first record whose email matches `email` case-insensitively. */
  function IndexOfEmail(users: seq<StoredUser>, email: string): (r: Option<nat>)
    ensures r.Some? ==> r.value < |users| && SameEmail(users[r.value].email, email)
    ensures r.Some? ==> forall j | 0 <= j < r.value :: !SameEmail(users[j].email, email)
    ensures r.None? ==> forall j | 0 <= j < |users| :: !SameEmail(users[j].email, email)
  {
    if users == [] then None
    else if SameEmail(users[0].email, email) then Some(0)
    else match IndexOfEmail(users[1..], email)
      case None => None
      case Some(k) => Some(k + 1)
  }

  /** `users.findIndex(u => u.id === id)`, with -1 as `None`. */
  function IndexOfId(users: seq<StoredUser>, id: string): (r: Option<nat>)
    ensures r.Some? ==> r.value < |users| && users[r.value].id == id
    ensures r.Some? ==> forall j | 0 <= j < r.value :: users[j].id != id
    ensures r.None? ==> forall j | 0 <= j < |users| :: users[j].id != id
  {
    if users == [] then None
    else if users[0].id == id then Some(0)
    else match IndexOfId(users[1..], id)
      case None => None
      case Some(k) => Some(k + 1)
  }

  /** `users.some(u => u.id !== id && sameEmail(u.email, email))`. */
  predicate EmailTakenByOther(users: seq<StoredUser>, id: string, email: string)
    ensures !EmailTakenByOther(users, id, email) && IndexOfEmail(users, email).Some? ==>
      users[IndexOfEmail(users, email).value].id == id
    ensures IndexOfEmail(users, email).None? ==> !EmailTakenByOther(users, id, email)
  {
    exists j | 0 <= j < |users| :: users[j].id != id && SameEmail(users[j].email, email)
  }

  /** No two records share an email, ignoring case. */
  ghost predicate EmailsUnique(users: seq<StoredUser>) {
    forall i, j | 0 <= i < j < |users| :: !SameEmail(users[i].email, users[j].email)
  }

  /** No two records share an id. */
  ghost predicate IdsUnique(users: seq<StoredUser>) {
    forall i, j | 0 <= i < j < |users| :: users[i].id != users[j].id
  }

  /** Appending a record whose email is not yet present keeps emails unique. */
  lemma AppendKeepsEmailsUnique(users: seq<StoredUser>, u: StoredUser)
    requires EmailsUnique(users)
    requires IndexOfEmail(users, u.email).None?
    ensures EmailsUnique(users + [u])
  {
    var all := users + [u];
    forall i, j | 0 <= i < j < |all|
      ensures !SameEmail(all[i].email, all[j].email)
    {
      if j == |users| {
        assert !SameEmail(users[i].email, u.email);
      }
    }
  }

  /** Appending a record with a fresh id keeps ids unique. */
  lemma AppendKeepsIdsUnique(users: seq<StoredUser>, u: StoredUser)
    requires IdsUnique(users)
    requires forall j | 0 <= j < |users| :: users[j].id != u.id
    ensures IdsUnique(users + [u])
  {
    var all := users + [u];
    forall i, j | 0 <= i < j < |all|
      ensures all[i].id != all[j].id
    {
      if j == |users| {
        assert all[i] == users[i];
      }
    }
  }

  /**
   * Changing the email of record `k` to one that no record with a different id
   * holds keeps emails unique, provided ids are unique: a second record with
   * the same id would escape the check.
   */
  lemma ProfileUpdateKeepsEmailsUnique(users: seq<StoredUser>, k: nat, nome: string, email: string)
    requires k < |users|
    requires EmailsUnique(users) && IdsUnique(users)
    requires !EmailTakenByOther(users, users[k].id, email)
    ensures EmailsUnique(users[k := users[k].(nome := nome, email := email)])
  {
    var all := users[k := users[k].(nome := nome, email := email)];
    forall i, j | 0 <= i < j < |all|
      ensures !SameEmail(all[i].email, all[j].email)
    {
      if i == k {
        assert users[j].id != users[k].id;
        assert !SameEmail(users[j].email, email);
      } else if j == k {
        assert users[i].id != users[k].id;
        assert !SameEmail(users[i].email, email);
      }
    }
  }

  /**
   * The counterexample that shows why the previous lemma needs unique ids:
   * two records sharing an id slip past the "used by another id" check.
   */
  lemma DuplicateIdDefeatsEmailCheck()
    ensures var users := [StoredUser("1", "a", "a@x", "p", Usuario), StoredUser("1", "b", "b@x", "q", Usuario)];
      && EmailsUnique(users)
      && !EmailTakenByOther(users, "1", "b@x")
      && !EmailsUnique(users[0 := users[0].(email := "b@x")])
  {
    var users := [StoredUser("1", "a", "a@x", "p", Usuario), StoredUser("1", "b", "b@x", "q", Usuario)];
    assert ToLower("a@x") == "a@x";
    assert ToLower("b@x") == "b@x";
    var updated := users[0 := users[0].(email := "b@x")];
    assert SameEmail(updated[0].email, updated[1].email);
  }

  /** The user table and the current-user slot, as kept in the key-value storage. */
  class LocalAuthStorage {
    var storage: map<string, Entry>

    /** The two keys the store owns always hold values of their own shape. */
    ghost predicate Valid()
      reads this
    {
      && (USERS_KEY in storage ==> storage[USERS_KEY].UsersList?)
      && (CURRENT_USER_KEY in storage ==> storage[CURRENT_USER_KEY].CurrentUserRecord?)
    }

    /** The uniqueness invariants that registration and profile updates keep. */
    ghost predicate Consistent()
      reads this
    {
      EmailsUnique(GetStoredUsers()) && IdsUnique(GetStoredUsers())
    }

    /** Keys other than the two the store owns are as in `before`. */
    ghost predicate OtherKeysAsIn(before: map<string, Entry>)
      reads this
    {
      storage - {USERS_KEY, CURRENT_USER_KEY} == before - {USERS_KEY, CURRENT_USER_KEY}
    }

    /** A store over whatever the storage already holds. */
    constructor (initial: map<string, Entry>)
      requires (USERS_KEY in initial ==> initial[USERS_KEY].UsersList?)
      requires (CURRENT_USER_KEY in initial ==> initial[CURRENT_USER_KEY].CurrentUserRecord?)
      ensures Valid() && storage == initial
    {
      storage := initial;
    }

    /** `getStoredUsers`: the saved list, or the empty list when the key is absent. */
    function GetStoredUsers(): (users: seq<StoredUser>)
      reads this
      ensures USERS_KEY !in storage ==> users == []
      ensures USERS_KEY in storage && storage[USERS_KEY].UsersList? ==> UsersList(users) == storage[USERS_KEY]
    {
      if USERS_KEY in storage && storage[USERS_KEY].UsersList? then storage[USERS_KEY].users else []
    }

    /** `getCurrentUser`: the stored current user, or none when the key is absent. */
    function GetCurrentUser(): (current: Option<User>)
      reads this
      ensures CURRENT_USER_KEY !in storage ==> current.None?
      ensures CURRENT_USER_KEY in storage && storage[CURRENT_USER_KEY].CurrentUserRecord? ==>
        current.Some? && CurrentUserRecord(current.value) == storage[CURRENT_USER_KEY]
    {
      if CURRENT_USER_KEY in storage && storage[CURRENT_USER_KEY].CurrentUserRecord?
      then Some(storage[CURRENT_USER_KEY].user)
      else None
    }

    /** `findUserByEmail`: the first stored record whose email matches, ignoring case. */
    function FindUserByEmail(email: string): (r: Option<StoredUser>)
      reads this
      ensures r.None? <==> forall j | 0 <= j < |GetStoredUsers()| :: !SameEmail(GetStoredUsers()[j].email, email)
      ensures r.Some? ==> exists i | 0 <= i < |GetStoredUsers()| ::
        && GetStoredUsers()[i] == r.value
        && SameEmail(r.value.email, email)
        && forall j | 0 <= j < i :: !SameEmail(GetStoredUsers()[j].email, email)
    {
      var users := GetStoredUsers();
      match IndexOfEmail(users, email)
      case None => None
      case Some(i) => Some(users[i])
    }

    /** `saveUsers`: overwrite the user table. */
    method SaveUsers(users: seq<StoredUser>)
      modifies this
      ensures storage == old(storage)[USERS_KEY := UsersList(users)]
    {
      storage := storage[USERS_KEY := UsersList(users)];
    }

    /** Overwrite the current-user slot. */
    method SaveCurrentUser(u: User)
      modifies this
      ensures storage == old(storage)[CURRENT_USER_KEY := CurrentUserRecord(u)]
    {
      storage := storage[CURRENT_USER_KEY := CurrentUserRecord(u)];
    }

    /**
     * `initializeDefaultAdmin`: when the table is empty, save a table holding
     * only the default admin; otherwise change nothing.
     */
    method InitializeDefaultAdmin(newId: string)
      requires Valid()
      modifies this
      ensures Valid()
      ensures old(GetStoredUsers()) == [] ==>
        storage == old(storage)[USERS_KEY := UsersList([StoredUser(newId, DEFAULT_ADMIN_NOME, DEFAULT_ADMIN_EMAIL, DEFAULT_ADMIN_SENHA, Admin)])]
      ensures old(GetStoredUsers()) != [] ==> storage == old(storage)
      ensures GetStoredUsers() != []
      ensures old(Consistent()) ==> Consistent()
    {
      var users := GetStoredUsers();
      if |users| == 0 {
        var adminUser := StoredUser(newId, DEFAULT_ADMIN_NOME, DEFAULT_ADMIN_EMAIL, DEFAULT_ADMIN_SENHA, Admin);
        SaveUsers([adminUser]);
        assert GetStoredUsers() == [adminUser];
      }
    }

    /**
     * `registerUser`: an email already present (ignoring case) throws and writes
     * nothing; otherwise one pending record is appended and returned without
     * its password.
     */
    method RegisterUser(nome: string, email: string, senha: string, newId: string) returns (r: Result<User, AuthError>)
      requires Valid()
      requires forall j | 0 <= j < |GetStoredUsers()| :: GetStoredUsers()[j].id != newId
      modifies this
      ensures Valid()
      ensures old(FindUserByEmail(email)).Some? ==> r == Failure(EmailAlreadyRegistered) && storage == old(storage)
      ensures old(FindUserByEmail(email)).None? ==>
        && r == Success(User(newId, nome, email, Pendente))
        && storage == old(storage)[USERS_KEY := UsersList(old(GetStoredUsers()) + [StoredUser(newId, nome, email, senha, Pendente)])]
      ensures old(Consistent()) ==> Consistent()
    {
      var users := GetStoredUsers();
      if FindUserByEmail(email).Some? {
        return Failure(EmailAlreadyRegistered);
      }
      var newUser := StoredUser(newId, nome, email, senha, Pendente);
      if Consistent() {
        AppendKeepsEmailsUnique(users, newUser);
        AppendKeepsIdsUnique(users, newUser);
      }
      users := users + [newUser];
      SaveUsers(users);
      assert GetStoredUsers() == users;
      r := Success(WithoutPassword(newUser));
    }

    /**
     * `authenticateUser`: an unknown email or a wrong password throws and writes
     * nothing; on success the record without its password becomes the current
     * user and is returned. The user table is never written.
     */
    method AuthenticateUser(email: string, senha: string) returns (r: Result<User, AuthError>)
      requires Valid()
      modifies this
      ensures Valid()
      ensures old(FindUserByEmail(email)).None? ==> r == Failure(EmailNotRegistered) && storage == old(storage)
      ensures old(FindUserByEmail(email)).Some? && old(FindUserByEmail(email)).value.senha != senha ==>
        r == Failure(IncorrectPassword) && storage == old(storage)
      ensures old(FindUserByEmail(email)).Some? && old(FindUserByEmail(email)).value.senha == senha ==>
        && r == Success(WithoutPassword(old(FindUserByEmail(email)).value))
        && storage == old(storage)[CURRENT_USER_KEY := CurrentUserRecord(r.value)]
      ensures r.Success? ==> GetCurrentUser() == Some(r.value)
      ensures GetStoredUsers() == old(GetStoredUsers())
    {
      var user := FindUserByEmail(email);
      if user.None? {
        return Failure(EmailNotRegistered);
      }
      if user.value.senha != senha {
        return Failure(IncorrectPassword);
      }
      var userWithoutPassword := WithoutPassword(user.value);
      SaveCurrentUser(userWithoutPassword);
      r := Success(userWithoutPassword);
    }

    /**
     * `updateUserRole`: an unknown id returns false and writes nothing; otherwise
     * only that record's role changes, and the current user takes the new role
     * when it has that id. No caller role is checked.
     */
    method UpdateUserRole(userId: string, newRole: Role) returns (ok: bool)
      requires Valid()
      modifies this
      ensures Valid()
      ensures ok <==> IndexOfId(old(GetStoredUsers()), userId).Some?
      ensures !ok ==> storage == old(storage)
      ensures ok ==>
        var k := IndexOfId(old(GetStoredUsers()), userId).value;
        && USERS_KEY in storage
        && GetStoredUsers() == old(GetStoredUsers())[k := old(GetStoredUsers())[k].(role := newRole)]
        && OtherKeysAsIn(old(storage))
        && GetCurrentUser() == (
          if old(GetCurrentUser()).Some? && old(GetCurrentUser()).value.id == userId
          then Some(old(GetCurrentUser()).value.(role := newRole))
          else old(GetCurrentUser()))
      ensures old(Consistent()) ==> Consistent()
    {
      var users := GetStoredUsers();
      var userIndex := IndexOfId(users, userId);
      if userIndex.None? {
        return false;
      }
      var k := userIndex.value;
      users := users[k := users[k].(role := newRole)];
      SaveUsers(users);
      assert GetStoredUsers() == users;
      var currentUser := GetCurrentUser();
      if currentUser.Some? && currentUser.value.id == userId {
        SaveCurrentUser(currentUser.value.(role := newRole));
        assert GetStoredUsers() == users;
      }
      ok := true;
    }

    /**
     * `updateUserProfile`: an unknown id returns false; an email held (ignoring
     * case) by a record with another id throws and writes nothing; otherwise only
     * that record's name and email change, mirrored into the current user when
     * it has that id.
     */
    method UpdateUserProfile(userId: string, nome: string, email: string) returns (r: Result<bool, AuthError>)
      requires Valid()
      modifies this
      ensures Valid()
      ensures IndexOfId(old(GetStoredUsers()), userId).None? ==> r == Success(false) && storage == old(storage)
      ensures IndexOfId(old(GetStoredUsers()), userId).Some? && EmailTakenByOther(old(GetStoredUsers()), userId, email) ==>
        r == Failure(EmailInUseByOther) && storage == old(storage)
      ensures IndexOfId(old(GetStoredUsers()), userId).Some? && !EmailTakenByOther(old(GetStoredUsers()), userId, email) ==>
        var k := IndexOfId(old(GetStoredUsers()), userId).value;
        && r == Success(true)
        && USERS_KEY in storage
        && GetStoredUsers() == old(GetStoredUsers())[k := old(GetStoredUsers())[k].(nome := nome, email := email)]
        && OtherKeysAsIn(old(storage))
        && GetCurrentUser() == (
          if old(GetCurrentUser()).Some? && old(GetCurrentUser()).value.id == userId
          then Some(old(GetCurrentUser()).value.(nome := nome, email := email))
          else old(GetCurrentUser()))
      ensures old(Consistent()) ==> Consistent()
    {
      var users := GetStoredUsers();
      var userIndex := IndexOfId(users, userId);
      if userIndex.None? {
        return Success(false);
      }
      if EmailTakenByOther(users, userId, email) {
        return Failure(EmailInUseByOther);
      }
      var k := userIndex.value;
      if Consistent() {
        ProfileUpdateKeepsEmailsUnique(users, k, nome, email);
      }
      users := users[k := users[k].(nome := nome, email := email)];
      SaveUsers(users);
      assert GetStoredUsers() == users;
      var currentUser := GetCurrentUser();
      if currentUser.Some? && currentUser.value.id == userId {
        SaveCurrentUser(currentUser.value.(nome := nome, email := email));
        assert GetStoredUsers() == users;
      }
      r := Success(true);
    }

    /**
     * `changePassword`: an unknown id returns false; a wrong current password
     * throws and writes nothing; otherwise only that record's password changes.
     * The current-user slot is never touched.
     */
    method ChangePassword(userId: string, oldPassword: string, newPassword: string) returns (r: Result<bool, AuthError>)
      requires Valid()
      modifies this
      ensures Valid()
      ensures IndexOfId(old(GetStoredUsers()), userId).None? ==> r == Success(false) && storage == old(storage)
      ensures IndexOfId(old(GetStoredUsers()), userId).Some? ==>
        var k := IndexOfId(old(GetStoredUsers()), userId).value;
        if old(GetStoredUsers())[k].senha != oldPassword then
          r == Failure(IncorrectCurrentPassword) && storage == old(storage)
        else
          && r == Success(true)
          && storage == old(storage)[USERS_KEY := UsersList(old(GetStoredUsers())[k := old(GetStoredUsers())[k].(senha := newPassword)])]
      ensures old(Consistent()) ==> Consistent()
    {
      var users := GetStoredUsers();
      var userIndex := IndexOfId(users, userId);
      if userIndex.None? {
        return Success(false);
      }
      var k := userIndex.value;
      if users[k].senha != oldPassword {
        return Failure(IncorrectCurrentPassword);
      }
      users := users[k := users[k].(senha := newPassword)];
      SaveUsers(users);
      assert GetStoredUsers() == users;
      assert forall j | 0 <= j < |users| :: users[j].email == old(GetStoredUsers())[j].email && users[j].id == old(GetStoredUsers())[j].id;
      r := Success(true);
    }

    /** `logoutUser`: remove the current-user key and nothing else. */
    method LogoutUser()
      requires Valid()
      modifies this
      ensures Valid()
      ensures storage == old(storage) - {CURRENT_USER_KEY}
      ensures GetCurrentUser().None? && GetStoredUsers() == old(GetStoredUsers())
    {
      storage := storage - {CURRENT_USER_KEY};
    }
  }

  /** A second bootstrap leaves the storage as the first one left it. */
  method BootstrapTwice(s: LocalAuthStorage, id1: string, id2: string) returns (afterFirst: map<string, Entry>)
    requires s.Valid()
    modifies s
    ensures s.Valid() && |s.GetStoredUsers()| >= 1
    ensures afterFirst == (if old(s.GetStoredUsers()) == []
      then old(s.storage)[USERS_KEY := UsersList([StoredUser(id1, DEFAULT_ADMIN_NOME, DEFAULT_ADMIN_EMAIL, DEFAULT_ADMIN_SENHA, Admin)])]
      else old(s.storage))
    ensures s.storage == afterFirst
  {
    s.InitializeDefaultAdmin(id1);
    afterFirst := s.storage;
    s.InitializeDefaultAdmin(id2);
  }

  /** A record appended after records that do not match is the first match. */
  lemma AppendedIsFirstMatch(before: seq<StoredUser>, u: StoredUser, query: string)
    requires IndexOfEmail(before, u.email).None?
    requires SameEmail(u.email, query)
    ensures IndexOfEmail(before + [u], query) == Some(|before|)
  {
    var all := before + [u];
    assert all[|before|] == u;
    assert forall j | 0 <= j < |before| :: all[j] == before[j] && !SameEmail(all[j].email, query);
  }

  /**
   * A fresh registration followed by a login with the same email in any
   * letter case: a different password is refused with "Senha incorreta", and
   * the registered password yields the registered user, pending approval.
   */
  method RegisterThenAuthenticate(s: LocalAuthStorage, nome: string, email: string, senha: string,
                                  other: string, query: string, newId: string)
    returns (reg: Result<User, AuthError>, wrong: Result<User, AuthError>, login: Result<User, AuthError>)
    requires s.Valid()
    requires forall j | 0 <= j < |s.GetStoredUsers()| :: s.GetStoredUsers()[j].id != newId
    requires s.FindUserByEmail(email).None?
    requires SameEmail(query, email) && other != senha
    modifies s
    ensures reg == Success(User(newId, nome, email, Pendente))
    ensures wrong == Failure(IncorrectPassword)
    ensures login == reg
  {
    var before := s.GetStoredUsers();
    var u := StoredUser(newId, nome, email, senha, Pendente);
    reg := s.RegisterUser(nome, email, senha, newId);
    AppendedIsFirstMatch(before, u, query);
    wrong := s.AuthenticateUser(query, other);
    login := s.AuthenticateUser(query, senha);
  }
}
