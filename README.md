# Verified model of the comercia API gateway core

This project models the decision layer of `netlify/functions/api.js`, the
single Express handler set behind the comercia API. It covers four pieces:

- **The authentication gate** (`authMiddleware`). It takes the bearer token
  out of the Authorization header, verifies it, and binds `userId`. Otherwise
  it answers 401.
- **The account flows** `/auth/register`, `/auth/login` and `/auth/me` over
  the `users` table.
- **Owner-scoped agent CRUD** over the `agents` table.
- **The conversation listing** and **message append** (`/chat/send`).

Supabase becomes an in-memory `Backend` object. It holds one sequence per
table: `users`, `agents`, `conversations`, `messages`. Each route is a method
that reads or updates those sequences in the order the handler does.
bcryptjs and jsonwebtoken become abstract function pairs (`Crypto.Hasher`,
`Crypto.Signer`). Each pair has one law:

- a password matches its own digest;
- a signed token verifies to its user until `iat + 7 days`.

Lemmas show that both laws can be met. Each request receives an `Env`, which
carries four things the handler cannot decide:

- the clock;
- the id the database generates;
- whether the handler's read call reports an error;
- whether its write call reports an error.

Files and modules:

- `json.dfy` (`Json`): JSON values, rows, JavaScript truthiness, body fields.
- `text.dfy` (`Text`): `toLowerCase` and first-occurrence `replace`.
- `crypto.dfy` (`Crypto`): the hasher and signer and their laws, with
  witnesses that the laws can be satisfied.
- `gate.dfy` (`Gate`): token extraction and the gate outcome.
- `tables.dfy` (`Tables`): `.eq` filter chains, inserts with database
  defaults, filtered update and delete, and newest-first ordering.
- `http.dfy` (`Http`): the response shapes.
- `accounts.dfy` (`Accounts`): the user record, the password-stripped view,
  single-row lookups, and the ordered login checks.
- `api.dfy` (`Api`): the `Backend` class with one method per route, and the
  router `Serve`.
- `scenario.dfy` (`Scenario`): five clients that replay one session: a
  registration, a duplicate registration, a profile fetch, agents staying
  with their owner, and an agent listing through the router. They use only
  the handlers' and the router's contracts.

Where the code behaves in a way its callers may not expect, the model
follows the code:

- **Updating with zero matching rows.** `PUT /agents/:id` ends in
  `.single()`. When the `id` and owner match no row, the response is 500
  'Erro ao atualizar agente', not a not-found answer (`UpdateAgent`).
- **The owner can change.** The update applies the whole request body,
  including `user_id`. A caller can therefore hand its agent to another user
  (`UpdateOwnerFollowsBody`). The owner is not immutable.
- **Lookup errors are dropped.** Register and login read only `data` from
  their e-mail lookup and ignore its error. A lookup that fails counts as
  "no such user":
  - login answers 401 'Credenciais inválidas';
  - register goes on to insert.

  So e-mail uniqueness is not an invariant of the model. `Register`
  preserves it only when its lookup succeeded.
- **No ownership check on messages.** `/chat/send` stores the message under
  whatever `conversationId` the body names. The caller's id does not enter
  into what is stored.
- **Deactivation does not revoke tokens.** The gate does not re-read the
  user. A deactivated account's outstanding tokens keep passing the gate
  until they expire.

## Model

| member | source | states |
|---|---|---|
| `Json.Field` | netlify/functions/api.js:44 | destructuring a body field yields the value when the key is present and `undefined` otherwise |
| `Json.OrElse` | netlify/functions/api.js:67 | `x \|\| fallback` keeps a truthy value and otherwise gives the fallback (for `undefined`, `null`, `""`, `0`, `false`) |
| `Json.OrNull` | netlify/functions/api.js:64-70 | an undefined insert field is stored as `null`; a defined one is stored as sent |
| `Json.Entry` | netlify/functions/api.js:329-331 | a field that is undefined is left out of the inserted object, and a defined one is included with its value |
| `Text.Lower` | netlify/functions/api.js:49 | `toLowerCase` keeps the length, lowers each character, and leaves no upper-case letter |
| `Text.LowerIdempotent` | netlify/functions/api.js:105 | lowering an address that is stored lowered gives it back, so a login lookup finds the registered address |
| `Text.IndexFrom` | netlify/functions/api.js:28 | the search from a position returns the first occurrence at or after it, and None only when there is none |
| `Text.IndexOf` | netlify/functions/api.js:28 | returns the leftmost occurrence of the pattern, or None when it occurs nowhere |
| `Text.ReplaceFirst` | netlify/functions/api.js:28 | `replace` with a string pattern cuts only the leftmost occurrence, wherever it stands, and leaves a string without one unchanged |
| `Text.ReplaceLeadingOccurrence` | netlify/functions/api.js:28 | a header that starts with the pattern loses exactly that prefix |
| `Crypto.Expiry` | netlify/functions/api.js:79 | a token signed at `iat` is valid exactly while `now < iat + 604800`; its claims carry `exp = iat + 7 days`; after that it is `Expired` |
| `Crypto.HasherLawSatisfiable` | netlify/functions/api.js:59 | some hasher meets the law that a password matches its own digest, so the law is consistent |
| `Crypto.SignerLawSatisfiable` | netlify/functions/api.js:79 | some signer meets the law that a signed token verifies to its user until expiry, so the law is consistent |
| `Gate.ExtractToken` | netlify/functions/api.js:28 | no header gives `undefined`; otherwise the first case-sensitive occurrence of "Bearer " is removed |
| `Gate.Authenticate` | netlify/functions/api.js:26-40 | a missing or empty token gives 'Token não fornecido'; any verification failure gives 'Token inválido'; an id is bound exactly when the token verifies, and it is the verified `userId` claim |
| `Gate.MissingHeaderRejected` | netlify/functions/api.js:28-32 | no header, an empty header, and a header that is exactly "Bearer " are all rejected as missing, whatever the verifier |
| `Gate.BearerTokenExtracted` | netlify/functions/api.js:28 | "Bearer t" passes exactly `t` to the verifier |
| `Gate.HeaderWithoutSchemeVerbatim` | netlify/functions/api.js:28 | a header without the exact text "Bearer " (for example "bearer t") goes to the verifier whole |
| `Gate.FailuresCollapse` | netlify/functions/api.js:34-38 | malformed, badly signed and expired tokens all get the same 401 'Token inválido' |
| `Gate.IssuedTokenAuthenticates` | netlify/functions/api.js:34-36 | a token issued for `u` binds `u` throughout its seven days and is rejected as invalid from its expiry on |
| `Tables.Where` | netlify/functions/api.js:187-191 | a chain of `.eq` filters returns exactly the matching rows with their multiplicities, and nothing when none match |
| `Tables.WhereKeepsTable` | netlify/functions/api.js:269-273 | deleting the rows a filter matches keeps every row stored and every id unique |
| `Tables.IdQueryMatchesAtMostOne` | netlify/functions/api.js:244-247 | a filter that fixes the id matches at most one row, so `.single()` fails only when nothing matched |
| `Tables.InsertKeepsNewestFirst` | netlify/functions/api.js:191 | inserting a row by `created_at` into a newest-first sequence keeps it newest first |
| `Tables.NewestFirst` | netlify/functions/api.js:191 | the order by `created_at` descending is a permutation of its input in which `created_at` never increases |
| `Tables.WithDefaults` | netlify/functions/api.js:215-219 | an inserted row gets the generated `id` and `created_at` unless the caller sent its own, and keeps every sent column |
| `Tables.InsertKeepsTable` | netlify/functions/api.js:217 | an insert that the table accepts keeps every row stored and every id unique |
| `Tables.UpdateWhere` | netlify/functions/api.js:243-245 | a filtered update overwrites the patched columns of the matched rows only; rows are not added, removed or moved |
| `Tables.NarrowingQuery` | netlify/functions/api.js:297-303 | adding filters to a query can only shrink its result |
| `Tables.OwnerFilterIsolates` | netlify/functions/api.js:292-295 | a query that starts with the owner filter returns only that owner's rows |
| `Accounts.WithoutPassword` | netlify/functions/api.js:81 | the stripped object has no `password` column and every other column unchanged |
| `Accounts.UserRow` | netlify/functions/api.js:46-48 | `select('*')` on `users` yields every column of the record, the password digest included |
| `Accounts.Public` | netlify/functions/api.js:81 | the user returned to a client has no password, and has that user's id and e-mail with every other stored column |
| `Accounts.UsersWhere` | netlify/functions/api.js:46-50 | a lookup on `users` returns exactly the users satisfying the filter, each as often as it is stored, and is empty only when none do |
| `Accounts.WithEmail` | netlify/functions/api.js:102-105 | `.eq('email', e)` returns exactly the users stored under `e`, with their multiplicities |
| `Accounts.WithId` | netlify/functions/api.js:157-160 | `.eq('id', id)` returns exactly the users with that id, with their multiplicities |
| `Accounts.Single` | netlify/functions/api.js:50 | `maybeSingle`/`single` give data only when exactly one row matched, and then that row |
| `Accounts.SingleFindsUnique` | netlify/functions/api.js:102-106 | when at most one user satisfies a filter, the single-row lookup finds a user exactly when one is stored |
| `Accounts.LookupByEmail` | netlify/functions/api.js:102-106 | with unique e-mails, the lookup finds the account under an address whenever there is one |
| `Accounts.LookupById` | netlify/functions/api.js:157-161 | with unique ids, `/auth/me`'s lookup finds the caller's account whenever it is stored |
| `Accounts.NewUser` | netlify/functions/api.js:63-73 | the registered user has the lowered e-mail and the hashed password; its role is `role \|\| 'user'`; its plan is 'free'; it is active and verified; it has never logged in; undefined fields are null |
| `Accounts.Decide` | netlify/functions/api.js:108-129 | login checks an unknown account first, then the active flag, then the password; it grants exactly an active, found user whose password is text and matches; a non-text password and a wrong one are told apart exactly |
| `Accounts.Refusal` | netlify/functions/api.js:108-129 | an unknown account and a wrong password both give 401 'Credenciais inválidas'; an inactive account gives 401 'Conta desativada'; a non-text password gives 500 |
| `Accounts.DeactivatedBeforePassword` | netlify/functions/api.js:115-120 | an inactive account is refused with 'Conta desativada' whatever password is sent, the right one included |
| `Accounts.UnknownAndWrongPasswordAlike` | netlify/functions/api.js:108-128 | an unknown address and a wrong password for an active account get identical responses |
| `Accounts.RegisteredPasswordAccepted` | netlify/functions/api.js:122-124 | with a sound hasher, the password an active account was registered with is granted |
| `Accounts.StampLogin` | netlify/functions/api.js:131-134 | recording a login changes `last_login` of the users with that id and nothing else |
| `Accounts.StampLoginKeepsKeys` | netlify/functions/api.js:131-134 | recording a login keeps ids and e-mails, and hence both uniqueness properties |
| `Api.OwnerQuery` | netlify/functions/api.js:187-190 | `.eq('user_id', caller)` matches a row exactly when the caller owns it |
| `Api.TargetQuery` | netlify/functions/api.js:244-245 | `.eq('id', id).eq('user_id', caller)` matches a row exactly when it has that id and the caller owns it |
| `Api.ConversationQuery` | netlify/functions/api.js:292-303 | the query always starts with the owner filter; it has a `status` or `agent_id` filter exactly when that parameter is given and non-empty |
| `Api.ConversationMatch` | netlify/functions/api.js:292-303 | a conversation the query matches has the caller's `user_id` and the given `status` and `agent_id` |
| `Api.ConversationFiltersNarrow` | netlify/functions/api.js:297-303 | supplying a `status` or `agent_id` filter yields a subset of the list without it |
| `Api.AgentData` | netlify/functions/api.js:210-213 | the agent sent for insertion is owned by the caller whatever `user_id` the body names; every other body column is kept |
| `Api.CreatedAgentOwnedByCaller` | netlify/functions/api.js:210-219 | the stored agent is the caller's even when the body forges another owner |
| `Api.UpdateOwnerFollowsBody` | netlify/functions/api.js:243 | an updated agent keeps its owner unless the body names another, in which case ownership moves |
| `Api.MessageData` | netlify/functions/api.js:328-333 | the message stored has sender 'user', the body's conversation id and content (omitted when undefined), and the clock as timestamp |
| `Api.Backend.Register` | netlify/functions/api.js:42-96 | 409 and no change if exactly one user has the lowered address; otherwise one `NewUser` row is appended and 201 returns it stripped with a token for its id; non-text e-mail or password, or a failed insert, gives 500 with no change; e-mail uniqueness is kept when the lookup succeeds |
| `Api.Backend.Login` | netlify/functions/api.js:98-153 | refusals follow `Decide` and change nothing; on success `last_login` is set unless the update fails, and the response carries the stripped user as read and a token for its id |
| `Api.Backend.Me` | netlify/functions/api.js:155-183 | the profile is returned exactly when the caller's id is stored and the read succeeds; it is that user without a password; otherwise 404 'Usuário não encontrado' |
| `Api.Backend.ListAgents` | netlify/functions/api.js:185-206 | exactly the caller's agents, with multiplicities and newest first; `[]` when there are none; 500 'Erro ao buscar agentes' only on a read error |
| `Api.Backend.CreateAgent` | netlify/functions/api.js:208-235 | appends exactly one row, owned by the caller, and returns it with 201; on error 500 and the table is unchanged |
| `Api.Backend.UpdateAgent` | netlify/functions/api.js:237-263 | only the row with the target id owned by the caller changes; zero matches or an error gives 500 'Erro ao atualizar agente' and no change |
| `Api.Backend.DeleteAgent` | netlify/functions/api.js:265-288 | removes exactly the rows with the target id owned by the caller; matching none is still success; on error 500 and no change |
| `Api.Backend.ListConversations` | netlify/functions/api.js:290-320 | every conversation returned is the caller's and meets each given filter; the result is exactly the matching rows, newest first |
| `Api.Backend.SendMessage` | netlify/functions/api.js:322-350 | appends one message with sender 'user' and the given conversation id, whoever the caller is; on error 500 and no change |
| `Api.Backend.Serve` | netlify/functions/api.js:26-40 | register and login behave as their handlers; a protected route whose gate rejects answers 401 with the gate's message and changes nothing; one the gate admits has exactly its handler's outcome for the `userId` bound from the token; every agent or conversation a protected route lists or creates belongs to that user; each route writes only its own table |

## Left out

- Express, helmet, cors, JSON parsing and the serverless wrapper are framework plumbing (api.js:1-9, 22-24, 360).
- The `/health` route returns a constant and has nothing to state (api.js:352-358).
- `console.error` logging is not modelled.
- bcrypt internals are inside the abstract `Hasher`: salting, cost factor 12 and constant-time comparison (api.js:59, 122). The hash is a deterministic function of the password.
- JWT signing and verification are inside the abstract `Signer`, and so is the fallback secret (api.js:13, 34, 79).
- The Supabase client and the network are replaced by in-memory tables (api.js:15-20). A collaborator error is the `readFails` or `writeFails` flag of `Env`. The model does not decide which bodies the real schema rejects, except:
  - a duplicate `id` is rejected;
  - an `id` that is not a string is rejected;
  - a `created_at` that is not a number is rejected.
- Request concurrency is not modelled. In particular, the model cannot show the check-then-insert race of registration (api.js:46-75).
- Timestamps are integer clock readings in seconds. ISO-8601 formatting is not modelled. A body that sends `created_at` in another form counts as rejected by the table.
- JSON values are scalars: null, booleans, integers and strings. Nested objects and arrays in request bodies are not modelled. Nor are non-object bodies or repeated query parameters.
- Text.Lower: lowers ASCII letters only. JavaScript `toLowerCase` also lowers non-ASCII letters.
- `.eq` filters compare a column with a string value. The model does not capture the database converting other column types to text.
- The `agents(name)` embed in the conversation select is a foreign-key join done by the library (api.js:294).
- A token that verifies but has no `userId` claim is not modelled: the verifier's claims always carry one.
- The table schemas are not part of the source, so the model assumes them:
  - every table gives an inserted row a generated `id` and a `created_at`, and no other default column;
  - `users` has exactly the columns the handlers write, plus `id`, `created_at` and `last_login`;
  - `messages` has a `created_at` like the other tables, although the handler itself writes only `timestamp` (api.js:332);
  - a column a register body leaves undefined is stored as `null` (`Json.OrNull`), not as a schema default.
- Api.Backend.CreateAgent, Api.Backend.SendMessage: `.insert(...).select().single()` returns what the table stores (api.js:215-219, 326-335). In the model that is exactly the sent columns plus `id` and `created_at`. Other database defaults of `agents` and `messages` are not modelled.
