# client-dashboard-pulse — a verified model of its core rules

This project models the sequential, storage-backed rules of the
client-dashboard-pulse web application in Dafny, and proves what they promise.

- **Local credential store** (`auth_storage.dfy`, module `AuthStorage`). This is
  a user table and a current-user slot held in a key-value store under
  `pk_system_users` and `pk_system_current_user`. On top of it, the model has:
  - the default-admin bootstrap;
  - case-insensitive email lookup;
  - registration as `pendente`;
  - authentication;
  - role update, profile update, password change and logout.

  The store is a class whose field is the key-value map. Each operation's
  `ensures` gives the whole new map. The operations keep an invariant: emails
  are unique case-insensitively, and ids are unique.
- **Session context** (`auth_context.dfy`, module `AuthContext`). This is the
  `AuthProvider` state: one `user` and the `'user'` storage key. It has login,
  logout, the mount-time restore and `isAuthenticated`. In this snapshot the
  context is a mock. It accepts one hard-coded pair of credentials, is not
  connected to the credential store, and its user has no role. The model keeps
  it that way.
- **Admin user-management page** (`gerenciar_usuarios.dfy`). This covers:
  - the admin-only access check;
  - the password-masked listing;
  - which role buttons each row offers;
  - the change-role handler.
- **Registration form** (`register_form.dfy`). This is the ordered validation
  of `handleSubmit`: mismatch first, then minimum length. Only then does the
  form call `register`, with loading on around the call.
- **Client list** (`clientes_list.dfy`). This covers the search and filter
  predicate, the page count and page slice, and the save (upsert), delete and
  page-change handlers.
- **Client pagination bar** (`clientes_pagination.dfy`). This covers the
  previous/next handlers, the five-page window generator and the
  nothing-to-render guard.
- **Transaction service** (`transacoes.dfy`). This is the monthly summary
  (totals by type) and the month-by-month history. The history walks back from
  the current month with a Euclidean month adjustment.

`wrappers.dfy` holds `Option` and `Result`. `text.dfy` holds the ASCII lowercase
and the substring test that the lookups and filters use.

Conventions:
- The program's one `localStorage` is modelled as two typed views over
  disjoint keys. The credential store holds `pk_system_users` and
  `pk_system_current_user` in a `map<string, Entry>`. The session context holds
  `'user'` in a `map<string, StoredItem>`. Neither side touches the other's
  keys, and each operation states that every key it does not write is
  unchanged. JSON encoding and decoding are the identity, so each key holds a
  typed value.
- Navigation is returned as the destination it would go to.
- Calls into code the model cannot see are parameters:
  - the id generators become fresh-id arguments that are not already in use;
  - `confirm()` becomes a boolean;
  - the month query becomes a function from `(month, year)` to rows, an error
    or an exception;
  - `updateRole` and `register` become a resolved/rejected outcome;
  - the users that the admin page's `loadUsers` reads via `getStoredUsers()`
    are a `stored` argument of `CheckAccess`, `LoadUsersFrom` and
    `HandleChangeRole`, not a read of a `LocalAuthStorage`. So the reload after
    a role change is not tied to `UpdateUserRole`'s new table.
- Effects whose order matters are recorded in a step trace.

The pages and the form take `updateRole` and `register` from `useAuth()`. The
session context of this snapshot provides neither.

The code differs from a unified authentication service in two ways, and the
model follows the code:
- `updateUserRole` has no check on the caller's role, although a comment says
  it does.
- The session context's user has no `role`. So the admin page denies every
  session user (`GerenciarUsuarios.SessionUserIsAlwaysDenied`).

## Model

| member | source | states |
|---|---|---|
| Text.ToLower | src/lib/auth/authStorage.ts:56 | the lowercase of a string has the same length and lowercases each character; applying it twice is the same as once (`Text.ToLowerIdempotent`) |
| Text.IncludesAt | src/components/clientes/ClientesList.tsx:70-72 | `includes` holds exactly when the term occurs at some position of the text |
| AuthStorage.LocalAuthStorage.constructor | src/lib/auth/authStorage.ts:17-18 | the store starts over the storage as it is, whose two keys hold a user table and a current user when present |
| AuthStorage.LocalAuthStorage.SaveUsers | src/lib/auth/authStorage.ts:32-34 | exactly the users key is overwritten with the given table |
| AuthStorage.LocalAuthStorage.SaveCurrentUser | src/lib/auth/authStorage.ts:98 | exactly the current-user key is overwritten with the given user |
| AuthStorage.WithoutPassword | src/lib/auth/authStorage.ts:97 | the returned user keeps id, name, email and role; whatever the password was, the result is the same (`AuthStorage.WithoutPasswordIgnoresSenha`) |
| AuthStorage.EmailTakenByOther | src/lib/auth/authStorage.ts:137 | when no other id holds the email, the first record that matches it, if any, is the user's own record; when no record matches, the email is not taken |
| AuthStorage.LocalAuthStorage.GetStoredUsers | src/lib/auth/authStorage.ts:26-29 | an absent users key reads as the empty list; otherwise the saved list is returned |
| AuthStorage.IndexOfEmail | src/lib/auth/authStorage.ts:55-57 | the index found is the first record whose lowercased email equals the lowercased query; none is found exactly when no record matches |
| AuthStorage.LocalAuthStorage.FindUserByEmail | src/lib/auth/authStorage.ts:55-57 | the first stored record that matches case-insensitively, or none exactly when no record matches |
| AuthStorage.IndexOfId | src/lib/auth/authStorage.ts:112 | the first record with the given id, or none exactly when no record has it |
| AuthStorage.LocalAuthStorage.InitializeDefaultAdmin | src/lib/auth/authStorage.ts:37-52 | with an empty list it writes exactly one admin record (`admin@exemplo.com`, `admin123`); with a non-empty list the store is unchanged; consistency is kept |
| AuthStorage.BootstrapTwice | src/lib/auth/authStorage.ts:37-52 | the first bootstrap's result, which it returns, is the old store with the one-admin table written when the table was empty and the old store otherwise; the second bootstrap leaves the store exactly as that; afterwards the table holds at least one record |
| AuthStorage.LocalAuthStorage.RegisterUser | src/lib/auth/authStorage.ts:60-82 | an email present case-insensitively fails with "Este email já está registrado" and writes nothing; otherwise exactly one `pendente` record is appended, earlier records are untouched, the record without its password is returned, and case-insensitive email uniqueness and id uniqueness are kept |
| AuthStorage.AppendKeepsEmailsUnique | src/lib/auth/authStorage.ts:63-77 | appending a record whose email no record matches case-insensitively keeps emails unique |
| AuthStorage.AppendKeepsIdsUnique | src/lib/auth/authStorage.ts:68-77 | appending a record with an unused id keeps ids unique |
| AuthStorage.LocalAuthStorage.AuthenticateUser | src/lib/auth/authStorage.ts:85-101 | an unknown email fails with "Email não registrado" and a wrong password with "Senha incorreta", writing nothing; success stores the record without its password as the current user and returns it, and `GetCurrentUser` then returns it; the users list never changes |
| AuthStorage.RegisterThenAuthenticate | src/lib/auth/authStorage.ts:60-101 | for every name, email and password and every fresh id, registering and then logging in with the email in any letter case returns the registered user as `pendente`, and any other password is rejected with "Senha incorreta" |
| AuthStorage.LocalAuthStorage.GetCurrentUser | src/lib/auth/authStorage.ts:104-107 | an absent current-user key reads as none; otherwise the stored user is returned |
| AuthStorage.LocalAuthStorage.UpdateUserRole | src/lib/auth/authStorage.ts:110-127 | an unknown id returns false and writes nothing; otherwise only that record's role changes, the current user gets the new role exactly when its id matches, no caller role is checked, and consistency is kept |
| AuthStorage.LocalAuthStorage.UpdateUserProfile | src/lib/auth/authStorage.ts:130-155 | an unknown id returns false; an email held case-insensitively by another id fails with "Este email já está em uso por outro usuário" and writes nothing; otherwise only that record's name and email change, mirrored into the current user exactly when its id matches, and consistency is kept |
| AuthStorage.ProfileUpdateKeepsEmailsUnique | src/lib/auth/authStorage.ts:136-144 | with unique ids, a profile update that passes the taken-by-another-id check keeps emails unique |
| AuthStorage.DuplicateIdDefeatsEmailCheck | src/lib/auth/authStorage.ts:137 | the taken-by-another-id check compares ids only, so two records that share one id can end with the same email; the previous lemma needs unique ids |
| AuthStorage.LocalAuthStorage.ChangePassword | src/lib/auth/authStorage.ts:158-173 | an unknown id returns false; a wrong old password fails with "Senha atual incorreta" and writes nothing; otherwise only that record's password changes and the current user is not touched |
| AuthStorage.LocalAuthStorage.LogoutUser | src/lib/auth/authStorage.ts:176-178 | exactly the current-user key is removed |
| AuthContext.OnlyExactCredentials | src/contexts/AuthContext.tsx:32 | login accepts exactly `admin@exemplo.com` with `senha123`, compared case-sensitively: an upper-case spelling of the email is refused, and so is `admin123`, the password the credential store seeds |
| AuthContext.AuthProvider.constructor | src/contexts/AuthContext.tsx:22 | the provider starts with no user and the storage as given |
| AuthContext.AuthProvider.IsAuthenticated | src/contexts/AuthContext.tsx:76 | authenticated exactly when there is a user |
| AuthContext.AuthProvider.Login | src/contexts/AuthContext.tsx:26-53 | the mock pair sets the fixed user, stores the same value under `'user'` and navigates to `'/'`; any other pair changes neither the user nor the storage; afterwards the user is authenticated exactly when the pair was accepted or it was authenticated before |
| AuthContext.AuthProvider.Logout | src/contexts/AuthContext.tsx:55-60 | the user is cleared, so `isAuthenticated` is false; exactly the `'user'` key is removed; it navigates to `'/login'` |
| AuthContext.AuthProvider.RestoreOnMount | src/contexts/AuthContext.tsx:63-73 | a stored user that parses becomes the user; stored text that does not parse is removed and the user is unchanged; an absent or empty key changes nothing |
| AuthContext.ReloadAfterLogin | src/contexts/AuthContext.tsx:26-73 | a provider mounted over the storage a successful login left behind restores login's user (a round trip) |
| GerenciarUsuarios.GerenciarUsuariosPage.constructor | src/pages/GerenciarUsuarios.tsx:23-24 | the page starts with no users, not loading, and no steps taken |
| GerenciarUsuarios.AccessCheck | src/pages/GerenciarUsuarios.tsx:39-52 | no user means redirect to login; a user whose role is not admin is denied; only an admin loads the list; the three cases are exclusive |
| GerenciarUsuarios.SessionUserIsAlwaysDenied | src/pages/GerenciarUsuarios.tsx:45-49 | every user of this snapshot's session context is denied, because that user has no role |
| GerenciarUsuarios.GerenciarUsuariosPage.CheckAccess | src/pages/GerenciarUsuarios.tsx:39-52 | no user: navigate to `'/login'` with nothing loaded; a non-admin: navigate to `'/'` with nothing loaded; an admin: the list becomes the masked stored users |
| GerenciarUsuarios.MaskPasswords | src/pages/GerenciarUsuarios.tsx:27-36 | the listing has the same length and order as the stored users, every password is `********`, and every other field is kept |
| GerenciarUsuarios.MaskPasswordsIdempotent | src/pages/GerenciarUsuarios.tsx:30-33 | masking an already masked listing changes nothing |
| GerenciarUsuarios.GerenciarUsuariosPage.LoadUsersFrom | src/pages/GerenciarUsuarios.tsx:27-36 | the page's users become the masked stored users |
| GerenciarUsuarios.RowActions | src/pages/GerenciarUsuarios.tsx:112-139 | a row shows a button exactly when that button's role predicate holds, and shows no button twice |
| GerenciarUsuarios.RowActionsByRole | src/pages/GerenciarUsuarios.tsx:112-139 | an admin row has no buttons and only an admin row has none; a `pendente` row offers approve then premium; `usuario` and `premium` rows offer premium then block; no button requests the admin role; approve and block always change the role |
| GerenciarUsuarios.GerenciarUsuariosPage.HandleChangeRole | src/pages/GerenciarUsuarios.tsx:55-66 | loading is set, then `updateRole` is called; the list is reloaded only when the call resolves; loading ends false on both paths |
| RegisterForm.RegisterFormState.constructor | src/components/auth/RegisterForm.tsx:12-19 | the form starts with empty fields, no error, not loading, and no steps taken |
| RegisterForm.PasswordError | src/components/auth/RegisterForm.tsx:26-34 | a mismatch gives "As senhas não coincidem.", whatever the length; matching passwords shorter than 6 give the length message; otherwise there is no error |
| RegisterForm.RegisterFormState.HandleSubmit | src/components/auth/RegisterForm.tsx:22-43 | the previous error is cleared first; invalid input sets the error and calls nothing; valid input sets loading, calls `register` exactly once with the form's name, email and password, and clears loading whether the call resolves or throws |
| ClientesList.Matches | src/components/clientes/ClientesList.tsx:69-78 | empty search, category and plan accept every client; a chosen category or plan admits only clients that have it |
| ClientesList.FilteredClientes | src/components/clientes/ClientesList.tsx:69-78 | the result is the order-preserving subsequence of the clients that match the search (name or email, ignoring case, or phone) and the category and plan filters |
| ClientesList.FilterConcat | src/components/clientes/ClientesList.tsx:69-78 | filtering distributes over concatenation, so the filter keeps the order of the list |
| ClientesList.EmptyFiltersKeepAll | src/components/clientes/ClientesList.tsx:70-75 | an empty search term with empty category and plan filters keeps every client |
| ClientesList.TotalPaginas | src/components/clientes/ClientesList.tsx:81 | the page count is the ceiling of records over the page size: the smallest count whose pages hold every record |
| ClientesList.Slice | src/components/clientes/ClientesList.tsx:84 | `slice` with clamped bounds: at most `fim - inicio` entries, empty when the start is at or past the end, and the exact sub-sequence when the bounds are in range |
| ClientesList.ClientesPaginados | src/components/clientes/ClientesList.tsx:82-84 | the page shown is the slice from `(p-1)*n` to `p*n` of the filtered list, cut at its end, with at most `n` entries |
| ClientesList.PagesPartition | src/components/clientes/ClientesList.tsx:82-84 | the first `k` pages in a row are a prefix of the filtered list |
| ClientesList.AllPagesCoverFiltered | src/components/clientes/ClientesList.tsx:81-84 | pages 1 to `totalPaginas` in a row are exactly the filtered list |
| ClientesList.ClientesListState.constructor | src/components/clientes/ClientesList.tsx:60-67 | the list starts with the initial client data on page 1 with 25 items per page and no filters |
| ClientesList.ClientesListState.Visiveis | src/components/clientes/ClientesList.tsx:69-84 | the visible clients are at most one page's worth, and each one is a client of the list that passes the current filters |
| ClientesList.ReplaceById | src/components/clientes/ClientesList.tsx:89-91 | every entry with the saved client's id is replaced by it; length and all other entries are unchanged |
| ClientesList.ReplaceByIdKeepsIds | src/components/clientes/ClientesList.tsx:87-91 | saving an existing client keeps the sequence of ids, and saving it again changes nothing |
| ClientesList.RemoveById | src/components/clientes/ClientesList.tsx:108 | exactly the entries with that id are removed, and the rest keep their order |
| ClientesList.RemoveConcat | src/components/clientes/ClientesList.tsx:108 | deletion distributes over concatenation |
| ClientesList.RemoveAbsentId | src/components/clientes/ClientesList.tsx:108 | deleting an id no entry has changes nothing |
| ClientesList.ClientesListState.HandleSalvarCliente | src/components/clientes/ClientesList.tsx:86-104 | a client with an id replaces every entry with that id; a client without one is prepended once with a fresh id; the dialog closes |
| ClientesList.ClientesListState.HandleExcluirCliente | src/components/clientes/ClientesList.tsx:106-111 | once confirmed, exactly the entries with that id are removed; if not confirmed, nothing changes |
| ClientesList.ClientesListState.HandleChangePagina | src/components/clientes/ClientesList.tsx:123-125 | the current page becomes the emitted page |
| ClientesList.ClientesListState.HandleChangeItensPorPagina | src/components/clientes/ClientesList.tsx:127-130 | the page size changes and the current page goes back to 1 |
| ClientesPagination.IrParaPaginaAnterior | src/components/clientes/ClientesPagination.tsx:13-17 | "previous" emits `p-1` exactly when `p > 1` |
| ClientesPagination.IrParaProximaPagina | src/components/clientes/ClientesPagination.tsx:19-23 | "next" emits `p+1` exactly when `p < totalPaginas` |
| ClientesPagination.NavigationStaysInRange | src/components/clientes/ClientesPagination.tsx:13-23 | from a page in range, both buttons only emit pages in range |
| ClientesPagination.GerarPaginas | src/components/clientes/ClientesPagination.tsx:25-41 | the window is consecutive ascending pages, all in `[1, totalPaginas]`, `min(5, totalPaginas)` of them, so exactly 5 when there are at least 5 pages; it contains the current page whenever that page is in range; it starts at `max(1, min(p - 2, totalPaginas - 4))`, so page 5 of 10 shows pages 3 to 7 |
| ClientesPagination.Render | src/components/clientes/ClientesPagination.tsx:43-86 | nothing is rendered exactly when `totalPaginas <= 1`; otherwise the buttons are the `gerarPaginas` window (`min(5, totalPaginas)` consecutive pages in range, starting at `max(1, min(p - 2, totalPaginas - 4))`), a button is active exactly when it is the current page, one button is active when the current page is in range, and each arrow is disabled on the page it cannot leave |
| Transacoes.DoTipo | src/lib/supabase/transacoesService.ts:48-54 | the transactions of one type: every one kept has that type, and every transaction of that type is kept |
| Transacoes.DoTipoConcat | src/lib/supabase/transacoesService.ts:48-54 | filtering by type distributes over concatenation; together with the length bound on one transaction this fixes the result as the order-preserving filter, each transaction kept once |
| Transacoes.Soma | src/lib/supabase/transacoesService.ts:48-50 | the sum of one transaction is its amount, the sum of non-negative amounts is non-negative and the sum of zero amounts is zero; the sum over a concatenation is the sum of the sums (`Transacoes.SomaConcat`) |
| Transacoes.TiposParticionam | src/lib/supabase/transacoesService.ts:48-54 | the income total plus the expense total is the sum over all transactions |
| Transacoes.GetResumoMensal | src/lib/supabase/transacoesService.ts:26-71 | an error or an exception gives zero totals and no transactions; rows give the income sum, the expense sum, their difference as the balance, and the rows themselves |
| Transacoes.JsRem | src/lib/supabase/transacoesService.ts:82 | JavaScript's remainder: the dividend is the quotient truncated toward zero times the divisor plus the remainder, the remainder takes the sign of the dividend and is smaller in size than the divisor, so `-13 % 12` is `-1` (`Transacoes.NegativeMonthNeedsShift`) |
| Transacoes.MesAjustadoIsEuclidean | src/lib/supabase/transacoesService.ts:82 | `((mes % 12) + 12) % 12` is the Euclidean remainder, always in `0..11` |
| Transacoes.GetHistoricoMensal | src/lib/supabase/transacoesService.ts:74-101 | `n` entries, each a month index in `0..11`, with `ano*12 + mes` equal to the current month minus `i`, so each entry is one month before the previous; each carries that month's income total |

## Left out

- JSON: `JSON.parse` and `JSON.stringify` are the identity. The store holds typed values, so an empty string or malformed JSON under a credential-store key is not modelled. For the session context's `'user'` key, unparseable text is a `Raw` value.
- `JSON.parse` of valid JSON that is not a user: it is not modelled, because the session key holds either a user or unparseable text.
- Text.ToLower: maps ASCII letters only, because the model has no Unicode case mapping.
- RegisterForm.PasswordError: counts characters rather than UTF-16 code units, because strings are sequences of characters.
- Id generation from `Date.now` and `Math.random`: replaced by fresh-id parameters, because clocks and randomness are outside the model.
- Async delays, `setTimeout`, toasts and the `navigate` call: omitted as side effects; navigation is returned as its destination.
- `confirm()`: becomes a boolean parameter, because the dialog is user input.
- `updateRole` and `register` from `useAuth()`: their outcome is a parameter, because the session context of this snapshot provides neither. As written, both are `undefined`, so every call throws a `TypeError` and only the `Rejected` outcome can occur. The `Resolved` outcome stands for the call as intended once it is wired to the credential store.
- Dates: `Date`, `toISOString` and `toLocaleDateString` month boundaries are omitted, because they are host-runtime time and formatting. So is the month name in the history: the month is its index.
- Amounts: `valor` is a whole number, and `toFixed` formatting is omitted, because the model has no floating point.
- The outer `catch` of `getHistoricoMensal`: omitted. The month query's own error paths are modelled through `getResumoMensal`, and nothing else in the loop throws once the query is an oracle.
- The remote database client, the client and plan services, and the copy of the transaction service in `src/lib/supabase.ts`: this is SDK plumbing or the same logic, which is modelled once.
- Presentational components and placeholder pages: these render fields, charts and links and hold no rules. This includes the sidebar's admin flag and the layout's login redirect.
- `handleAdicionarCliente` and `handleEditarCliente`: these only open the dialog, and the dialog is not modelled.
