# keybase vault — a Dafny model

keybase is a team-scoped vault for API keys, written as a Next.js
application. Users register and log in. They create teams, each with an
8-character invite code, and join teams by code. Members of a team store API
keys under it. The keys are encrypted at rest with AES-256-CBC and decrypted
only when a member asks to reveal one.

The application reaches the same operations through two transports:

- the JSON routes under `app/api/**/route.ts` resolve the caller from an
  `Authorization: Bearer <token>` header and answer with a status and a body;
- the server actions under `app/**/action.ts` resolve the caller from the
  `auth_token` cookie and answer with a plain object.

The model has these modules, one per file:

| module | file | what it holds |
|---|---|---|
| `Foreign` | foreign.dfy | The libraries the vault calls (AES, base64, bcrypt, JWT, zod's e-mail check), as function-valued fields of `Primitives`, each with the law lemmas may assume. |
| `JsText` | jstext.dfy | The JavaScript string operations the handlers use: `toUpperCase`, hex rendering, `startsWith`, `parseInt` with no radix. |
| `Encryption` | encryption.dfy | `lib/encryption.ts`: the key check and truncation, encrypt under a drawn IV, decrypt with the IV-length guard, one message per failure. |
| `Schema` | schema.dfy | `src/db/schema.ts`: the four record types, the constraints Postgres enforces, and each SQL statement as a function from the tables before to the tables after. |
| `Store` | store.dfy | The database as a class: the tables as fields, one method per statement, each proved to do what the `Schema` function says. |
| `Vault` | vault.dfy | Each operation defined once, as pure functions: the guards in the handlers' order, then the statements. |
| `VaultLaws` | vault_laws.dfy | What the operations promise together: the invariant every write keeps, and laws that relate one operation to the next. |
| `Routes` | routes.dfy | The JSON routes. Handlers that write are methods on the `Database`, proved against `Vault`; read-only ones are functions. |
| `Actions` | actions.dfy | The server actions, in the same way. |

Randomness is a parameter: the 16 IV bytes, the 4 team-code bytes and the
bcrypt salt are passed in as draws. The process environment is the value
`Env`. It holds the libraries and `ENCRYPTION_KEY`. Time is a logical clock
that advances once per committed insert statement or transaction; the
team-creation transaction stamps both its rows with one reading, and deleting
a key does not move it.

Notable behaviours of the code:

- `ENCRYPTION_KEY` is checked on every encrypt and decrypt, not once at
  start-up.
- A team-code collision is not retried. The unique constraint refuses the
  transaction, and the route answers a generic 500.
- Reveal and delete answer 404 for a missing key before they check
  membership, so a non-member learns whether the key id exists.
- The two 401 messages differ: one for a missing or malformed header, one for
  a token that does not verify.
- Decrypt collapses a bad key, a bad IV and bad padding into one message.
- The list route does not use its declared `listApiKeysSchema`. It uses
  `parseInt`, so `"12abc"` lists team 12, `"0x1A"` lists team 26, and `"0"`
  or a negative id answers 403 rather than 400.
- Key creation from the dashboard form stores the key under the team of the
  first membership the database returns for the caller, not a team the
  caller chooses.

## Model

| member | source | states |
|---|---|---|
| Encryption.GetEncryptionKey | lib/encryption.ts:11-26 | An unset or empty key is refused as not set. A key that decodes to fewer than 32 bytes is refused with its decoded length. Otherwise the key used is exactly the first 32 decoded bytes. |
| Encryption.Encrypt | lib/encryption.ts:32-49 | Fails exactly when the key is unusable, and then only with "Encryption operation failed". On success, the IV returned is the base64 of the 16 bytes drawn for this call. |
| Encryption.Decrypt | lib/encryption.ts:54-73 | Fails with "Decryption operation failed" when the key is unusable, when the IV does not decode to exactly 16 bytes, or when the cipher rejects the input. On success, the text is the cipher's decryption under the 32-byte key and the decoded IV. |
| Encryption.EncryptDecryptRoundTrip | lib/encryption.ts:28-73 | Under a usable key, decrypting the ciphertext and IV that encrypt returned gives back the plaintext. |
| Encryption.DistinctDrawsDistinctIvs | lib/encryption.ts:35-44 | Two encryptions under different IV draws return different IVs. |
| Encryption.ExtraKeyBytesIgnored | lib/encryption.ts:24-25 | Two keys that agree on their first 32 decoded bytes encrypt and decrypt identically. |
| JsText.ToUpperCase | app/api/team/join/route.ts:8-10 | The result has the input's length, and each character is the upper-case form of the input's character at that position. |
| JsText.UpperOfHexLower | app/api/team/create/route.ts:46 | Upper-casing the lower-case hex of some bytes gives their upper-case hex. |
| JsText.HexUpperIsUpperCase | app/api/team/join/route.ts:8-10 | toUpperCase leaves an upper-case hex string unchanged, so an issued code survives join's normalisation. |
| JsText.HexUpperInjective | app/api/team/create/route.ts:46 | Different byte strings of the same length have different hex renderings. |
| JsText.TrimStart | app/api/api-key/list/route.ts:45 | parseInt's leading-whitespace skip: the result is a suffix of the input and does not start with whitespace. |
| JsText.DigitPrefix | app/api/api-key/list/route.ts:45 | The longest prefix of digits in the radix: every character in it is a digit, and the next one is not. |
| JsText.ParseIntOfDecimal | app/api/api-key/list/route.ts:45-51 | parseInt reads back any non-negative integer written in decimal, after any leading whitespace and before any text that does not continue the number. |
| JsText.ParseDecimal | app/api/api-key/list/route.ts:45-51 | The decimal rendering of a non-negative integer is non-empty and parseInt reads it back as that integer. |
| JsText.MagnitudeOfDecimal | app/api/api-key/list/route.ts:45 | The unsigned part of parseInt reads the decimal digits of n back as n, when the text after them does not continue the number. |
| JsText.DecimalDigitsValue | app/api/api-key/list/route.ts:45 | The decimal digits of n are all digits and denote n. |
| Schema.EmptyValid | src/db/schema.ts:1-35 | A freshly migrated database meets every constraint. |
| Schema.FindUserByEmail | app/api/auth/register/route.ts:28-31 | Finds a user with that email, or reports that there is none. |
| Schema.FindTeamByCode | app/api/team/join/route.ts:46-49 | Finds a team with that code, or reports that there is none. |
| Schema.FindKey | app/api/api-key/reveal/route.ts:41-44 | Finds the key row with that id, or reports that there is none. |
| Schema.FindMembership | app/api/api-key/reveal/route.ts:53-59 | Finds a membership pairing that user with that team, or reports that there is none. |
| Schema.FirstMembershipOf | app/api-key/create/action.ts:34-37 | Finds the user's first membership row in insertion order: no row before it belongs to that user. It reports none only when the user belongs to no team. |
| Schema.KeysOfTeam | app/api/api-key/list/route.ts:69-70 | Holds exactly the key rows whose team is the given one. |
| Schema.InsertUser | src/db/schema.ts:3-9 | Refused exactly when the email is taken. Otherwise it appends one user with the next serial id, the default role 'user' and the current time. Either way the id sequence advances. |
| Schema.InsertTeamWithCreator | app/api/team/create/route.ts:48-69 | The transaction adds the team and the creator's membership together, or neither. It is refused when the creator is unknown or the code is taken. |
| Schema.InsertMembership | src/db/schema.ts:19-24 | Refused exactly when the user or the team does not exist. Otherwise it appends one membership with the next id. |
| Schema.InsertKey | src/db/schema.ts:26-34 | Refused exactly when the team or the creating user does not exist. Otherwise it appends one key row with both the ciphertext and the IV. |
| Schema.WithoutKey | app/api/api-key/delete/route.ts:67-68 | Keeps exactly the rows whose id differs from the one deleted. |
| Schema.DeleteKey | app/api/api-key/delete/route.ts:67-68 | Removes exactly the key rows with that id and changes no other table. |
| Schema.WithoutKeySplices | app/api/api-key/delete/route.ts:67-68 | When ids are unique, deleting row i's id splices out exactly row i and keeps the others in order. |
| Schema.WithoutAbsent | app/api/api-key/delete/route.ts:40-50 | Deleting an id that no row has leaves the rows as they were. |
| Schema.MembershipCountAppend | app/api/team/join/route.ts:73-77 | An appended membership adds one to its own (user, team) pair's count and nothing to any other pair's. |
| Schema.MembershipCountPositive | app/api/team/join/route.ts:58-64 | A (user, team) pair's count is positive exactly when some membership row pairs them. |
| Schema.UserRowsAppend | src/db/schema.ts:3-9 | A user row with the next id and a fresh email keeps serial ids and emails unique. |
| Schema.TeamRowsAppend | src/db/schema.ts:11-17 | A team row with the next id and an unused code keeps serial ids and team codes unique. |
| Schema.MemberRowsAppend | src/db/schema.ts:19-24 | A membership with the next id keeps serial ids unique and increasing. |
| Schema.KeyRowsAppend | src/db/schema.ts:26-34 | A key row with the next id and the current time keeps ids unique and stamps in insertion order. |
| Schema.RowsLater | src/db/schema.ts:1-35 | Advancing the sequences and the clock keeps every constraint on the rows already there. |
| Schema.MoreUsersKeepRefs | src/db/schema.ts:14-32 | Adding a user keeps every reference to a user resolvable. |
| Schema.MoreTeamsKeepRefs | src/db/schema.ts:21-31 | Adding a team keeps every reference to a team resolvable. |
| Schema.InsertUserValid | src/db/schema.ts:3-9 | The user insert keeps every constraint. |
| Schema.InsertTeamWithCreatorValid | src/db/schema.ts:11-24 | The team-creation transaction keeps every constraint. |
| Schema.InsertMembershipValid | src/db/schema.ts:19-24 | The membership insert keeps every constraint. |
| Schema.InsertKeyValid | src/db/schema.ts:26-34 | The key insert keeps every constraint. |
| Schema.KeyRowsSplice | src/db/schema.ts:26-34 | Splicing out one key row keeps the api_keys constraints. |
| Schema.DeleteKeyValid | app/api/api-key/delete/route.ts:67-68 | The delete statement keeps every constraint. |
| Store.Database.constructor | src/db/schema.ts:1-35 | A new database holds the empty tables. |
| Store.Database.InsertUser | src/db/schema.ts:3-9 | Changes the fields, and returns the row, exactly as `Schema.InsertUser` says. |
| Store.Database.InsertTeamWithCreator | app/api/team/create/route.ts:48-69 | Changes the fields, and returns the rows, exactly as `Schema.InsertTeamWithCreator` says. |
| Store.Database.InsertMembership | src/db/schema.ts:19-24 | Changes the fields, and returns the row, exactly as `Schema.InsertMembership` says. |
| Store.Database.InsertKey | src/db/schema.ts:26-34 | Changes the fields, and returns the row, exactly as `Schema.InsertKey` says. |
| Store.Database.DeleteKey | app/api/api-key/delete/route.ts:67-68 | Changes the fields exactly as `Schema.DeleteKey` says. |
| Vault.Register | app/api/auth/register/route.ts:9-47 | An invalid email is refused with "Invalid email". A password under 8 characters is refused with "Password too short". A taken email is refused. Every refusal leaves the tables unchanged. It succeeds exactly when the email is valid and unused and the password has at least 8 characters. Then one user is added with the bcrypt hash of the password, never the password itself, and the default role. |
| Vault.Login | app/api/auth/login/route.ts:9-38 | An invalid email is refused with "Invalid email", and an empty password with "Password is required". Past validation, every failure is the one credentials refusal. A success is a stored user with that email whose hash matches the password, and a stored user whose hash matches is always that success. An unknown email never succeeds. |
| Vault.CreateTeam | app/api/team/create/route.ts:9-69 | A name under 3 or over 50 characters is refused with zod's message and changes nothing. A taken code or an unknown creator fails the transaction, which uses up only a team id. It succeeds exactly when the name is 3 to 50 characters, the creator exists and the code is unused; then the team and the creator's membership are both added. |
| Vault.JoinTeam | app/api/team/join/route.ts:8-77 | A code outside 4 to 12 characters is refused. Otherwise the upper-cased code is looked up, and an unknown code is refused. A caller who already belongs to the team found is refused as already a member, exactly then, with nothing changed. The insert fails only for an unknown caller, and then uses up only a membership id. A known non-member with a valid code that finds a team always joins it: exactly one (caller, team) membership is added. |
| Vault.KeyFieldsIssue | app/api-key/create/action.ts:11-14 | Reports no issue exactly when the name is 1 to 100 characters and the key is not empty. |
| Vault.CreateKeyIssue | app/api/api-key/create/route.ts:9-13 | Reports no issue exactly when the name is 1 to 100 characters, the key is not empty and teamId is at least 1. |
| Vault.StoreKey | app/api/api-key/create/route.ts:67-76 | Fails on an unusable encryption key, without touching the tables. It succeeds exactly when the key is usable and the team and the caller exist. Then it adds one row with the ciphertext and IV from encrypt, the given team and the caller as creator. Nothing else changes. |
| Vault.CreateKey | app/api/api-key/create/route.ts:38-76 | Invalid input is refused, and so is a caller who is not a member of teamId. Neither refusal adds a row. Once both guards pass, the outcome is exactly `Vault.StoreKey` under teamId: the row holds encrypt's ciphertext and IV, the caller is its creator, and no other table changes. |
| Vault.CreateKeyInFirstTeam | app/api-key/create/action.ts:22-51 | A caller with no membership is refused. On success, the new row is under the team of the caller's first membership in insertion order, with the caller as creator. Once the fields are valid and a membership exists, the outcome is exactly `Vault.StoreKey` under that team. |
| Vault.Project | app/api/api-key/list/route.ts:71-76 | Each listed item is the id, name, creator and time of the row at the same position. There is no ciphertext and no IV. |
| Vault.InsertNewest | app/api/api-key/list/route.ts:77 | Inserting into a newest-first list keeps it newest first and adds exactly that item. |
| Vault.NewestFirst | app/api/api-key/list/route.ts:77 | The result is ordered by createdAt, descending, and is a permutation of the input. |
| Vault.ListKeys | app/api/api-key/list/route.ts:53-77 | Refused exactly when the caller is not a member of that team. Otherwise it gives the team's rows, projected and newest first. |
| Vault.AuthorizeKey | app/api/api-key/reveal/route.ts:41-66 | A missing key id is not found, and this is decided before membership. A key whose own stored team the caller does not belong to is refused. Otherwise it gives that stored row. |
| Vault.RevealKey | app/api/api-key/reveal/route.ts:41-74 | Refuses as AuthorizeKey does. When AuthorizeKey gives a row whose ciphertext and IV decrypt, the answer is that plaintext; any success is such a decryption of the record's own ciphertext under its own IV. A decryption failure is its own outcome, exactly when decryption fails. |
| Vault.DeleteKey | app/api/api-key/delete/route.ts:40-68 | Refuses as AuthorizeKey does, and then nothing changes. On success, exactly the rows with that id are removed. No other table changes in either case. |
| VaultLaws.EmptyInvariant | src/db/schema.ts:1-35 | The empty database meets the invariant: the constraints, unique memberships, and creators who are members. |
| VaultLaws.RegisterKeepsInvariant | app/api/auth/register/route.ts:28-47 | Registration keeps the invariant. |
| VaultLaws.NewTeamHasNoMembers | src/db/schema.ts:19-24 | Under the constraints, no membership refers to the team id not yet drawn. |
| VaultLaws.CreateTeamKeepsInvariant | app/api/team/create/route.ts:48-69 | Team creation keeps the invariant, including "every creator is a member". |
| VaultLaws.AppendKeepsUnique | app/api/team/join/route.ts:58-77 | Appending a membership for a pair not yet recorded keeps memberships unique. |
| VaultLaws.JoinTeamKeepsInvariant | app/api/team/join/route.ts:58-77 | Join keeps the invariant. |
| VaultLaws.StoreKeyKeepsInvariant | app/api/api-key/create/route.ts:67-76 | Storing a key keeps the invariant. |
| VaultLaws.CreateKeyKeepsInvariant | app/api/api-key/create/route.ts:38-76 | The route's key creation keeps the invariant. |
| VaultLaws.CreateKeyInFirstTeamKeepsInvariant | app/api-key/create/action.ts:33-51 | The action's key creation keeps the invariant. |
| VaultLaws.DeleteKeyKeepsInvariant | app/api/api-key/delete/route.ts:67-68 | Delete keeps the invariant. |
| VaultLaws.AtMostOneMembership | app/api/team/join/route.ts:59-77 | With unique memberships, any (user, team) pair is recorded at most once. |
| VaultLaws.JoinNeverDuplicates | app/api/team/join/route.ts:59-77 | After any join from an invariant state, every (user, team) pair is recorded at most once. |
| VaultLaws.JoinTwiceConflicts | app/api/team/join/route.ts:58-71 | After a known non-member joins a team with a valid code, joining again with the same code is refused as already a member and changes nothing. |
| VaultLaws.CreatorIsMember | app/api/team/create/route.ts:54-66 | When a known user creates a team with a valid name and an unused code, the user is recorded as its creator and is a member of the new team. |
| VaultLaws.TeamCodeFormat | app/api/team/create/route.ts:46 | A team code is 8 characters, each from 0-9A-F. |
| VaultLaws.TeamCodesDiffer | app/api/team/create/route.ts:46 | Different 4-byte draws give different codes. |
| VaultLaws.FindAppendedTeam | app/api/team/join/route.ts:46-49 | A team appended with an unused code is the one the code lookup finds. |
| VaultLaws.CreatorRejoinConflicts | app/api/team/join/route.ts:44-71 | When a known user creates a team with a valid name and an unused code, entering that code afterwards is refused as already a member and nothing changes. |
| VaultLaws.JoinByIssuedCode | app/api/team/join/route.ts:44-77 | When a known user creates a team with a valid name and an unused code, that code, typed as issued, lets any other registered user join exactly that team. |
| VaultLaws.FindAppendedKey | app/api/api-key/reveal/route.ts:41-44 | A key row appended with an id above every other is the one its id finds. |
| VaultLaws.RevealAfterCreate | app/api/api-key/reveal/route.ts:41-74 | Under the cipher and base64 laws and a usable encryption key, a member who stores a valid key under a team can reveal it and gets the plaintext back. |
| VaultLaws.DeleteTwiceNotFound | app/api/api-key/delete/route.ts:40-68 | After a member deletes an existing key of their team, deleting the same id again is not found and changes nothing, whoever asks. |
| VaultLaws.DeleteSplicesOneRow | app/api/api-key/delete/route.ts:67-68 | When a member of an existing key's team deletes it, exactly one row is removed, the one with that id. The others stay, in their order. |
| VaultLaws.ListShowsExactlyTheTeamKeys | app/api/api-key/list/route.ts:69-77 | For a member of the team, an item is listed exactly when it is the projection of some key of that team. |
| VaultLaws.FindAppendedUser | app/api/auth/login/route.ts:28-31 | A user appended with an unused email is the one the email lookup finds. |
| VaultLaws.LoginAfterRegister | app/api/auth/login/route.ts:28-38 | Under the bcrypt law, a registration with a valid, unused email and a password of at least 8 characters is followed by a login with the same credentials that finds the new user. |
| VaultLaws.LoginFailureIsGeneric | app/api/auth/login/route.ts:33-38 | An unknown email and a wrong password get the same refusal. |
| Routes.Authenticate | app/api/api-key/create/route.ts:17-35 | A missing header, or one that does not start with "Bearer ", is one refusal. A token, read from character 7 on, that does not verify is the other. Otherwise the caller is the token's payload. |
| Routes.BearerRoundTrip | app/api/api-key/create/route.ts:26-29 | Under the token law, "Bearer " plus a token this server signed authenticates its payload. |
| Routes.CreateKeyRoute | app/api/api-key/create/route.ts:15-94 | Authenticates first. It then leaves the database, and answers, as `Vault.CreateKey` and its rendering say: 400 with zod's first message, 403, or 200 with only id, name, teamId and createdAt. An unauthenticated call changes nothing. |
| Routes.ListKeysRoute | app/api/api-key/list/route.ts:12-91 | Answers 401, or 400 for a missing or unparsable teamId. It answers 403 exactly when the caller is not a member of the parsed team. It answers 200 exactly when an authenticated caller is a member of the team parseInt reads, and then carries that team's list. |
| Routes.ListByDecimalTeamId | app/api/api-key/list/route.ts:36-77 | A member asking with a non-negative team id written in decimal gets exactly that team's list. |
| Routes.KeyIdOf | app/api/api-key/reveal/route.ts:32-39 | Only a non-zero number passes the keyId guard. |
| Routes.RevealKeyRoute | app/api/api-key/reveal/route.ts:9-82 | Answers 401, then 400 for an invalid keyId. Otherwise it answers as `Vault.RevealKey` says: 404 before 403, 200 with the plaintext, or 500 when decryption fails. |
| Routes.DeleteKeyRoute | app/api/api-key/delete/route.ts:8-81 | Authenticates, then guards keyId. It then leaves the database, and answers, as `Vault.DeleteKey` says: 404, 403, or 200 after removing exactly that row. Refusals change nothing. |
| Routes.CreateTeamRoute | app/api/team/create/route.ts:13-82 | Authenticates. It then leaves the database, and answers, as `Vault.CreateTeam` says: 400 with zod's message, 500 for a failed transaction, or 200 with id, name, teamCode and createdAt. |
| Routes.JoinTeamRoute | app/api/team/join/route.ts:12-94 | Authenticates. It then leaves the database, and answers, as `Vault.JoinTeam` says: 400, 404, 409, or 200 with the team's id and name. |
| Routes.RegisterRoute | app/api/auth/register/route.ts:14-72 | Leaves the database, and answers, as `Vault.Register` says. A 200 carries a token for the new user's id, email and role, and those columns. |
| Routes.LoginRoute | app/api/auth/login/route.ts:14-65 | Answers 401 exactly on the credentials refusal, always with "Invalid email or password", and 400 exactly on invalid input. It answers 200 exactly when the login succeeds, with a token for the found user's id, email and role, and those columns. It changes no table. |
| Routes.RegisterThenLoginRoute | app/api/auth/login/route.ts:28-57 | After a registration with a valid, unused email and a long enough password, login with the same credentials answers as registration did, and its token authenticates the new user. |
| Actions.Session | lib/jwt.ts:24-44 | No cookie, or an empty one, is no session, and so is a token that does not verify. Otherwise the session is the token's payload. |
| Actions.SessionOfSignedCookie | app/auth/login/action.ts:37-50 | Under the token law, the cookie set with a signed token gives back its payload as the session. |
| Actions.CreateKeyAction | app/api-key/create/action.ts:16-59 | With no session, it answers "Authentication required" and changes nothing. Otherwise it leaves the database, and answers, as `Vault.CreateKeyInFirstTeam` says: the first validation message, "You are not a member of any team", "Failed to create API key", or success. |
| Actions.ListKeysAction | app/api-key/list/action.ts:8-44 | Answers "Authentication required" with no session. It lists exactly when the caller is a member of that team, giving the team's rows projected and newest first; otherwise "You are not a member of this team". |
| Actions.RevealKeyAction | app/api-key/reveal/action.ts:9-45 | Answers "Authentication required" with no session. It answers "API key not found" exactly when no row has that id, whatever the membership. A revealed secret is the decryption of the stored row's own ciphertext and IV. |
| Actions.DeleteKeyAction | app/api-key/delete/action.ts:9-46 | With no session, it answers "Authentication required" and changes nothing. Otherwise it leaves the database, and answers, as `Vault.DeleteKey` says: not found, no permission, or success after removing exactly that row. |
| Actions.FirstTeamCreateIsRouteCreate | app/api-key/create/action.ts:35-51 | For a caller whose first membership in insertion order is in team T, the action's key creation is the route's key creation for T. |
| Actions.CreateTeamAction | app/team/create/action.ts:16-58 | With no session, it answers "Not authenticated" and changes nothing. Otherwise it leaves the database as `Vault.CreateTeam` says. It returns the stored team's code on success, zod's message for a bad name, and an uncaught exception for a failed transaction. |
| Actions.JoinTeamAction | app/team/join/action.ts:15-60 | With no session, it answers "You must be logged in to join a team". Otherwise it leaves the database as `Vault.JoinTeam` says, and answers with the joined team's name or the join route's messages. A failed insert is not caught. |
| Actions.RegisterAction | app/auth/register/action.ts:17-63 | Leaves the database as `Vault.Register` says. On success, it returns the session cookie with a token for the new user and the redirect target /dashboard. |
| Actions.LoginAction | app/auth/login/action.ts:17-56 | Answers "Invalid input" exactly on invalid input, and "Invalid email or password" exactly on any credentials failure. It redirects exactly when the login succeeds, setting the session cookie for the found user and going to /dashboard. |
| Actions.RegisterThenLoginAction | app/auth/login/action.ts:29-55 | After registering through the form with a valid, unused email and a long enough password, the cookie set is a session for the new user, and logging in with the same credentials sets the same cookie and redirects to the same place. |

## Left out

- AES-256-CBC, base64, bcrypt, JWT signing and verification, and zod's e-mail check are not modelled. They are library code, so the model takes each as a parameter of type `Primitives`, and lemmas that need a round trip assume it as a law (`CipherLaws`, `Base64Laws`, `BcryptLaws`, `TokenLaws`).
- `TokenLaws` leaves out token expiry: any token this server signed verifies.
- Encrypt and decrypt drive a cipher object through `update` and `final`. The model collapses the pair into one library call, because the split is internal to node:crypto.
- `randomBytes` and bcrypt's salt are not modelled as random sources. They are draws passed in as parameters.
- `JWT_SECRET` is not modelled. lib/jwt.ts checks it at import; the model assumes it is set.
- Concurrency and transaction isolation are not modelled. Each operation is one atomic step against the database, so the check-then-insert races of register and join cannot happen in the model.
- Storage outages are not modelled. A failed Postgres connection or query is the only way to reach the list action's "Failed to fetch API keys" and the delete route's and delete action's generic failures. Those branches exist in the renderers but no modelled input reaches them.
- `req.json()` failures and `formData` fields that are missing or not strings are not modelled. The inputs are typed strings and integers, so zod's type errors (such as a teamId sent as a string) do not arise.
- A fractional `keyId` and a body that is JSON `null` are not modelled: `JsValue` has integer numbers only. An object or array as `keyId` is modelled, as `Composite`, and is answered 400 like any other non-number.
- Logging, `revalidatePath`, the `secure` cookie flag (it depends on `NODE_ENV`) and the HTTP mechanics of `redirect` (the NEXT_REDIRECT exception) are not modelled. The login action's redirect is the reply `Redirected`.
- JsText.ToUpperCase: upper-cases the ASCII letters only. Issued team codes are ASCII hex, so code generation is exact. A join code is arbitrary user text, though, and JavaScript also upper-cases other letters, some into several characters (U+FB00 'ﬀ' becomes "FF"). So "ﬀ12abcd" joins the team with code FF12ABCD in the code, while the model answers not found.
- Ids are unbounded in the model, but every id column is a Postgres `integer`. In the code, a `keyId` or `teamId` outside -2^31..2^31-1 makes the query fail, and the handler's catch answers its generic failure. This affects the reveal, delete, create and list routes (500) and the reveal, delete and list actions ("Failed to …"). The model answers these ids as it does any other unknown id: 404 / "API key not found" or 403 / not a member. For example, revealing `{keyId: 3000000000}` is a 500 in the code and a 404 in the model.
- Schema.FirstMembershipOf: `findFirst` without `orderBy` lets Postgres return any matching row; the model fixes the choice to the first row in insertion order.
- Text outside the Basic Multilingual Plane is not modelled. A Dafny `char` is a Unicode scalar value, not a UTF-16 code unit, so a character JavaScript counts as two units counts as one here. zod's length bounds can therefore differ for such text: a team name of 26 emoji is 52 units and refused by the code, but 26 characters in the model.
- JsText.ParseIntOfDecimal: states the read-back for non-negative integers only; team ids are positive serials. ParseInt itself handles a leading minus sign, but no lemma states the read-back of a negative rendering.
- JsText.ParseInt: reads the decimal and `0x` forms; `parseInt`'s results beyond the safe-integer range, which become floating point, are not modelled.
- The UI pages and components, the OpenAPI and docs routes, and `middleware.ts` are not part of this model; the middleware's check is commented out and it lets every request through.
