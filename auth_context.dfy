/**
 * The session context of this snapshot: a single `user` state and the
 * `'user'` storage key. It is a mock: login accepts one hard-coded pair of
 * credentials and is not connected to the credential store, and its user
 * carries no role.
 */
module AuthContext {
  import opened Wrappers

  const USER_KEY: string := "user"
  const MOCK_EMAIL: string := "admin@exemplo.com"
  const MOCK_SENHA: string := "senha123"

  /** The context's user: id, name and email, and no role. */
  datatype SessionUser = SessionUser(id: string, nome: string, email: string)

  /** The fixed user a successful login produces. */
  const MOCK_USER: SessionUser := SessionUser("1", "Administrador", "admin@exemplo.com")

  /**
   * What the `'user'` key holds: the JSON of a user (parsing gives it back),
   * or text that `JSON.parse` rejects.
   */
  datatype StoredItem = Serialized(user: SessionUser) | Raw(text: string)

  /** `email === 'admin@exemplo.com' && senha === 'senha123'`: exact, case-sensitive. */
  predicate AcceptsCredentials(email: string, senha: string) {
    email == MOCK_EMAIL && senha == MOCK_SENHA
  }

  /**
   * The context accepts exactly one email, in exactly one spelling: the same
   * email in upper case is refused, and so is the password the credential
   * store seeds for that email, `admin123`.
   */
  lemma OnlyExactCredentials(email: string, senha: string)
    ensures AcceptsCredentials(email, senha) <==> email == "admin@exemplo.com" && senha == "senha123"
    ensures !AcceptsCredentials("ADMIN@EXEMPLO.COM", "senha123")
    ensures !AcceptsCredentials("admin@exemplo.com", "admin123")
  {
    assert "ADMIN@EXEMPLO.COM"[0] != MOCK_EMAIL[0];
    assert "admin123"[0] != MOCK_SENHA[0];
  }

  /** The `AuthProvider` component's state and the storage keys it touches. */
  class AuthProvider {
    var user: Option<SessionUser>
    var storage: map<string, StoredItem>

    /** The provider as first rendered: no user, storage as it was. */
    constructor (initial: map<string, StoredItem>)
      ensures user.None? && storage == initial
    {
      user := None;
      storage := initial;
    }

    /** `isAuthenticated: !!user`. */
    predicate IsAuthenticated()
      reads this
      ensures IsAuthenticated() <==> user != None
    {
      user.Some?
    }

    /**
     * `login`: the mock pair sets the fixed user, stores it under `'user'` and
     * navigates to `'/'`; any other pair changes nothing.
     */
    method Login(email: string, senha: string) returns (navigateTo: Option<string>)
      modifies this
      ensures AcceptsCredentials(email, senha) ==>
        && user == Some(MOCK_USER)
        && storage == old(storage)[USER_KEY := Serialized(MOCK_USER)]
        && navigateTo == Some("/")
      ensures !AcceptsCredentials(email, senha) ==>
        user == old(user) && storage == old(storage) && navigateTo.None?
      ensures IsAuthenticated() <==> AcceptsCredentials(email, senha) || old(IsAuthenticated())
    {
      if email == MOCK_EMAIL && senha == MOCK_SENHA {
        var userData := MOCK_USER;
        user := Some(userData);
        storage := storage[USER_KEY := Serialized(userData)];
        navigateTo := Some("/");
      } else {
        navigateTo := None;
      }
    }

    /** `logout`: clear the user, remove the `'user'` key, navigate to `'/login'`. */
    method Logout() returns (navigateTo: string)
      modifies this
      ensures user.None? && !IsAuthenticated()
      ensures storage == old(storage) - {USER_KEY}
      ensures navigateTo == "/login"
    {
      user := None;
      storage := storage - {USER_KEY};
      navigateTo := "/login";
    }

    /**
     * The mount effect: a stored user that parses becomes the user; text that
     * does not parse is removed; an absent key or the empty (falsy) string
     * changes nothing.
     */
    method RestoreOnMount()
      modifies this
      ensures USER_KEY in old(storage) && old(storage)[USER_KEY].Serialized? ==>
        user == Some(old(storage)[USER_KEY].user) && storage == old(storage)
      ensures USER_KEY in old(storage) && old(storage)[USER_KEY].Raw? && old(storage)[USER_KEY].text != "" ==>
        user == old(user) && storage == old(storage) - {USER_KEY}
      ensures USER_KEY !in old(storage) || old(storage)[USER_KEY] == Raw("") ==>
        user == old(user) && storage == old(storage)
    {
      if USER_KEY in storage && storage[USER_KEY] != Raw("") {
        match storage[USER_KEY]
        case Serialized(u) =>
          user := Some(u);
        case Raw(_) =>
          storage := storage - {USER_KEY};
      }
    }
  }

  /**
   * A reload after a successful login restores the same user: the provider
   * mounted over the storage that login left behind ends with login's user.
   */
  method ReloadAfterLogin(initial: map<string, StoredItem>) returns (restored: Option<SessionUser>)
    ensures restored == Some(MOCK_USER)
  {
    var before := new AuthProvider(initial);
    var nav := before.Login(MOCK_EMAIL, MOCK_SENHA);
    var after := new AuthProvider(before.storage);
    after.RestoreOnMount();
    assert after.user == before.user;
    restored := after.user;
  }
}
