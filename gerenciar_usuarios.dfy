/**
 * The admin user-management page: the access check run whenever the session
 * user changes, the password-masked listing of the stored users, and the
 * per-row role actions.
 *
 * The page takes `updateRole` from the session context, which in this
 * snapshot provides none; its outcome is therefore a parameter. The users
 * `loadUsers` reads from the credential store are a parameter as well.
 */
module GerenciarUsuarios {
  import opened Wrappers
  import opened AuthStorage
  import AuthContext

  const MASK: string := "********"

  /** The page's view of the session user: `role` is `None` when the object has no such property. */
  datatype PageUser = PageUser(id: string, role: Option<Role>)

  /** How the page sees the session context's user, which has no `role` field. */
  function FromSession(u: AuthContext.SessionUser): PageUser {
    PageUser(u.id, None)
  }

  /** The three outcomes of the access-check effect. */
  datatype Access = RedirectToLogin | AccessDenied | LoadUsers

  /** No user: go to the login page; a user whose role is not admin: denied; an admin: load the list. */
  function AccessCheck(user: Option<PageUser>): (a: Access)
    ensures a == RedirectToLogin <==> user.None?
    ensures a == LoadUsers <==> user.Some? && user.value.role == Some(Admin)
    ensures a == AccessDenied <==> user.Some? && user.value.role != Some(Admin)
  {
    if user.None? then RedirectToLogin
    else if user.value.role != Some(Admin) then AccessDenied
    else LoadUsers
  }

  /** With the session context of this snapshot, the list is never reached. */
  lemma SessionUserIsAlwaysDenied(u: AuthContext.SessionUser)
    ensures AccessCheck(Some(FromSession(u))) == AccessDenied
  {
  }

  /** `loadUsers`' mapping: every record kept, in order, with its password masked. */
  function MaskPasswords(users: seq<StoredUser>): (shown: seq<StoredUser>)
    ensures |shown| == |users|
    ensures forall i | 0 <= i < |users| :: shown[i].senha == MASK
    ensures forall i | 0 <= i < |users| :: WithoutPassword(shown[i]) == WithoutPassword(users[i])
  {
    if users == [] then [] else [users[0].(senha := MASK)] + MaskPasswords(users[1..])
  }

  /** Masking an already masked list changes nothing. */
  lemma MaskPasswordsIdempotent(users: seq<StoredUser>)
    ensures MaskPasswords(MaskPasswords(users)) == MaskPasswords(users)
  {
  }

  /** The three buttons a row may show. */
  datatype RowAction = Aprovar | TornarPremium | Bloquear

  /** The role each button requests. */
  function Target(a: RowAction): Role {
    match a
    case Aprovar => Usuario
    case TornarPremium => Premium
    case Bloquear => Pendente
  }

  /** Whether a row whose user has `role` shows the button `a`. */
  predicate Offered(a: RowAction, role: Role) {
    match a
    case Aprovar => role == Pendente
    case TornarPremium => role != Admin
    case Bloquear => role != Pendente && role != Admin
  }

  /** The buttons of one row, in the order they are rendered. */
  function RowActions(role: Role): (actions: seq<RowAction>)
    ensures forall a :: a in actions <==> Offered(a, role)
    ensures forall i, j | 0 <= i < j < |actions| :: actions[i] != actions[j]
  {
    (if role == Pendente then [Aprovar] else [])
    + (if role != Admin then [TornarPremium] else [])
    + (if role != Pendente && role != Admin then [Bloquear] else [])
  }

  /**
   * The rows' actions by role: an admin row has none, a pending row may be
   * approved or made premium, any other row may be made premium or blocked;
   * and no action ever requests the admin role.
   */
  lemma RowActionsByRole(role: Role)
    ensures role == Admin <==> RowActions(role) == []
    ensures role == Pendente ==> RowActions(role) == [Aprovar, TornarPremium]
    ensures role == Usuario || role == Premium ==> RowActions(role) == [TornarPremium, Bloquear]
    ensures forall a | a in RowActions(role) :: Target(a) != Admin
    ensures forall a | a in RowActions(role) && a != TornarPremium :: Target(a) != role
  {
  }

  /** What the change-role handler awaits: `updateRole` resolves or throws. */
  datatype CallOutcome = Resolved | Rejected(message: string)

  /** The state updates the page performs, in order. */
  datatype PageStep = SetLoading(on: bool) | CallUpdateRole(userId: string, newRole: Role) | SetUsers(users: seq<StoredUser>)

  /** The page component's state. */
  class GerenciarUsuariosPage {
    var users: seq<StoredUser>
    var loading: bool
    var trace: seq<PageStep>

    constructor ()
      ensures users == [] && !loading && trace == []
    {
      users := [];
      loading := false;
      trace := [];
    }

    /** `loadUsers`: show the stored users with their passwords masked. */
    method LoadUsersFrom(stored: seq<StoredUser>)
      modifies this`users, this`trace
      ensures users == MaskPasswords(stored)
      ensures trace == old(trace) + [SetUsers(users)]
    {
      users := MaskPasswords(stored);
      trace := trace + [SetUsers(users)];
    }

    /**
     * The access-check effect: with no user navigate to `'/login'`, with a
     * non-admin navigate to `'/'`; only an admin reaches `loadUsers`.
     */
    method CheckAccess(user: Option<PageUser>, stored: seq<StoredUser>) returns (navigateTo: Option<string>)
      modifies this`users, this`trace
      ensures AccessCheck(user) == RedirectToLogin ==> navigateTo == Some("/login") && users == old(users) && trace == old(trace)
      ensures AccessCheck(user) == AccessDenied ==> navigateTo == Some("/") && users == old(users) && trace == old(trace)
      ensures AccessCheck(user) == LoadUsers ==>
        navigateTo.None? && users == MaskPasswords(stored) && trace == old(trace) + [SetUsers(users)]
    {
      if user.None? {
        return Some("/login");
      }
      if user.value.role != Some(Admin) {
        return Some("/");
      }
      LoadUsersFrom(stored);
      navigateTo := None;
    }

    /**
     * `handleChangeRole`: set loading, await `updateRole`, reload the list only
     * when it resolved, and clear loading on both paths.
     */
    method HandleChangeRole(userId: string, newRole: Role, outcome: CallOutcome, stored: seq<StoredUser>)
      modifies this`users, this`loading, this`trace
      ensures !loading
      ensures outcome == Resolved ==>
        && users == MaskPasswords(stored)
        && trace == old(trace) + [SetLoading(true), CallUpdateRole(userId, newRole), SetUsers(users), SetLoading(false)]
      ensures outcome.Rejected? ==>
        && users == old(users)
        && trace == old(trace) + [SetLoading(true), CallUpdateRole(userId, newRole), SetLoading(false)]
    {
      loading := true;
      trace := trace + [SetLoading(true)];
      trace := trace + [CallUpdateRole(userId, newRole)];
      if outcome == Resolved {
        LoadUsersFrom(stored);
      }
      loading := false;
      trace := trace + [SetLoading(false)];
    }
  }
}
