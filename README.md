# TechProManager — a verified model of its core

TechProManager is a project and task manager: a React client (sign-up and
sign-in forms, a task list, a Kanban board, task dialogs, a notifications
menu, a session store and a stand-in mock backend) talking to an Express
server (bearer-token gate, role allow-list, auth, user, project and task
routes over a relational store, with an in-memory fallback store).

This Dafny project models that core, one module per source file:

| module | models |
|---|---|
| `Js` | the JavaScript semantics the code relies on: falsiness, `split` on one character, `String(n)`, `\s`, `trim()` emptiness |
| `ServerModel` | the server's rows, the request identity, the reply shape, the tables (`Tables`), and the table queries the handlers share |
| `AuthMiddleware` | `authenticateToken` and `authorizeRole` |
| `AuthRoutes` | password hashing and verification, register, login, logout, `/me` |
| `UserRoutes`, `ProjectRoutes`, `TaskRoutes` | the user, project and task handlers |
| `InMemoryDb` | `createInMemoryDb`: `query`, `select`, `insert`, `update`, `delete` |
| `MockApi` | the mock auth, project and task services over their module-level arrays |
| `AuthStore` | the client session store |
| `RegisterForm`, `LoginForm`, `RegisterPage` | the sign-up component, the sign-in component, the sign-up page |
| `TasksPage`, `TaskDialog`, `EditTaskModal` | the task list page, the task dialog, the edit modal |
| `KanbanBoard`, `NotificationsMenu`, `ProjectCard` | the board, the menu, the project card helpers |

The model follows the source's own form:
- Code that only computes is written as functions and lemmas.
- State that a handler or a component changes in place becomes a class
  whose methods carry `modifies`. The classes are `Tables`, `Exchange`,
  `MemoryStore`, `MockStore`, `Store`, `Page`, `Modal` and `MenuState`.
- Loops in the source are `while` loops with invariants: the Kanban
  distribution, the user-map fill, the update's row loop and its key loop.
  `validateForm` has no loop; it is a method of straight-line checks.
- Constant answers and plain reads of a field carry no row below, having
  nothing to promise beyond their value: AuthRoutes.Logout,
  MockApi.MockStore.Logout, GetCurrentUser, GetAllProjects and GetAllTasks,
  and InMemoryDb.MemoryStore.TableOf.

Things outside the program are parameters:
- the key derivation and token signing and verification;
- the clock and the generated ids;
- the server's answers to the client (success flags, `CreateAnswer`, `Answer`).

## Model

| member | source | states |
|---|---|---|
| Js.OrText | server/src/routes/tasks.ts:62 | `field \|\| fallback` (also TaskDialog's defaults): a non-empty text is kept, otherwise the fallback; the result is empty only when both are |
| Js.OrNull | server/src/routes/tasks.ts:63-64 | `field \|\| null` (also TaskDialog's due date and project): null exactly for a falsy field, otherwise the field itself, never an empty text |
| Js.Split | server/src/middleware/auth.ts:17 | `split` on one character: there is always at least one piece (what the pieces are is stated by SplitJoin and SplitPiecesHaveNoSeparator) |
| Js.SplitNoSeparator | server/src/middleware/auth.ts:17 | a text without the separator splits into itself alone |
| Js.SplitAtSeparator | server/src/routes/auth.ts:21 | a text `a + sep + b` with `a` free of `sep` splits into `a` followed by the pieces of `b` |
| Js.SplitPiecesHaveNoSeparator | client/src/components/EditTaskModal.tsx:15 | no piece of a split holds the separator |
| Js.SplitJoin | server/src/routes/auth.ts:21 | joining the pieces of a split with the separator restores the text |
| Js.NatToString | client/src/services/mockApi.ts:130 | `String(n)` for a natural number: decimal digits, no leading zero |
| Js.NatToStringInjective | client/src/services/mockApi.ts:130 | distinct numbers give distinct `String(n)` texts |
| ServerModel.Tables.constructor | server/src/db/schema.ts:5-40 | the tables start empty |
| ServerModel.FindFirst | server/src/routes/auth.ts:71 | `select … where col = k limit 1`: nothing exactly when no row has the value; otherwise a row of the table with the value |
| ServerModel.FindFirstIsEarliest | server/src/routes/auth.ts:71-75 | with several rows sharing the value, the earliest one is the one found |
| ServerModel.RowsWithout | server/src/routes/tasks.ts:204-205 | `delete … where col = k`: exactly the rows without the value are kept |
| ServerModel.RowsWithoutNone | server/src/routes/tasks.ts:204-205 | deleting a value no row has keeps every row, in order |
| ServerModel.RowsWithoutIdempotent | server/src/routes/tasks.ts:204-205 | after a delete no row with the value is found, and deleting again changes nothing |
| ServerModel.AssigneesOf | server/src/routes/tasks.ts:112-113 | the user ids read back for a task are exactly those with an assignment row for it |
| ServerModel.AssigneesOfAppend | server/src/routes/tasks.ts:112-113 | reading assignees distributes over appended rows, so table order is kept |
| ServerModel.AssignmentRows | server/src/routes/tasks.ts:78-81 | one assignment row per id, in the order of the ids |
| ServerModel.AssignmentsNotOf | server/src/routes/tasks.ts:163 | removing a task's assignments keeps exactly the other tasks' rows |
| ServerModel.AssigneesAfterReplace | server/src/routes/tasks.ts:161-171 | after replacing, the task's assignees read back as exactly the new list |
| ServerModel.RemovedHasNone | server/src/routes/tasks.ts:163 | after the removal the task has no assignee |
| ServerModel.AssigneesOfRows | server/src/routes/tasks.ts:166-170 | freshly inserted rows read back as the inserted ids |
| ServerModel.AssigneesOfOtherTask | server/src/routes/tasks.ts:204 | removing one task's assignments leaves every other task's assignees as they were |
| AuthMiddleware.NoSpaceNoToken | server/src/middleware/auth.ts:17-20 | a non-empty header without a space carries no token |
| AuthMiddleware.SecondWordIsToken | server/src/middleware/auth.ts:17 | the token is the second space-separated word whatever the first one is; the scheme is not checked |
| AuthMiddleware.BearerRoundTrip | server/src/middleware/auth.ts:17 | `Bearer <t>` yields exactly `t` for a token without spaces |
| AuthMiddleware.Authenticate | server/src/middleware/auth.ts:15-31 | 401 iff there is no token; 403 iff the verifier refuses the token; otherwise the identity is the verifier's payload |
| AuthMiddleware.MissingHeaderIs401 | server/src/middleware/auth.ts:16-20 | no header is a 401 |
| AuthMiddleware.EmptyHeaderGoesToVerifier | server/src/middleware/auth.ts:17-26 | an empty header is falsy but not null, so the empty string goes to the verifier and gets a 403 |
| AuthMiddleware.BearerAuthenticates | server/src/middleware/auth.ts:15-30 | a `Bearer <t>` request passes iff the verifier accepts `t`, carrying the payload it returns |
| AuthMiddleware.Exchange.constructor | server/src/middleware/auth.ts:15 | a fresh request: no identity, nothing sent, `next` not called |
| AuthMiddleware.AuthenticateToken | server/src/middleware/auth.ts:15-31 | on success it sets `req.user` and calls `next` once; otherwise it sends 401 or 403 and does not call `next` |
| AuthMiddleware.AuthorizeRole | server/src/middleware/auth.ts:34-41 | passes iff there is an identity whose role is in the allow-list; a request without an identity is refused |
| AuthMiddleware.AuthorizeRoleMonotonic | server/src/middleware/auth.ts:36 | allowing more roles never turns a pass into a refusal |
| AuthMiddleware.AdminOnly | server/src/routes/users.ts:13 | the admin-only gate passes exactly the admins |
| AuthRoutes.ToHex | server/src/routes/auth.ts:14-15 | `toString('hex')`: two hex digits per byte, and never a colon |
| AuthRoutes.ToHexInjective | server/src/routes/auth.ts:15 | equal hex texts come from equal bytes |
| AuthRoutes.HexDigitsDistinct | server/src/routes/auth.ts:15 | the sixteen hex digits are distinct characters |
| AuthRoutes.ToHexHead | server/src/routes/auth.ts:15 | the first byte gives the first two hex digits, and the rest of the text is the hex of the other bytes |
| AuthRoutes.ByteOfDigits | server/src/routes/auth.ts:15 | a byte is fixed by its two hex digits |
| AuthRoutes.HashPassword | server/src/routes/auth.ts:13-17 | the stored value is 32 hex digits, a colon, then 128 hex digits |
| AuthRoutes.VerifyStoredFormat | server/src/routes/auth.ts:20-24 | for `salt:hash`, verification holds iff the hash equals the hex key derived from the supplied password and the salt text |
| AuthRoutes.HashThenVerify | server/src/routes/auth.ts:13-24 | a password verifies against its own stored value |
| AuthRoutes.OtherPasswordVerifies | server/src/routes/auth.ts:13-24 | another password verifies iff the key derivation gives it the same digest |
| AuthRoutes.DistinctSaltsDistinctHashes | server/src/routes/auth.ts:14-16 | two different salts give two different stored values |
| AuthRoutes.Register | server/src/routes/auth.ts:27-59 | 400 when a field is missing; 409 when the email is taken; otherwise one member row with the hashed password, answered 201 without the credential |
| AuthRoutes.Login | server/src/routes/auth.ts:62-107 | 400 iff a field is missing; with both fields, a token iff the first user with that email exists and its stored hash verifies the password, and otherwise exactly the one `Invalid credentials` 401; the token signs that user's id, email and role for one hour, with the profile |
| AuthRoutes.LoginDoesNotRevealAccounts | server/src/routes/auth.ts:72-81 | an unknown email and a wrong password get identical replies |
| AuthRoutes.RegisterThenLogin | server/src/routes/auth.ts:42-89 | a user just registered logs in with the same password |
| AuthRoutes.FindAfterAppend | server/src/routes/auth.ts:45-50 | an appended row with a fresh email is the one the email lookup finds |
| AuthRoutes.Me | server/src/routes/auth.ts:116-143 | 401 without an identity or when its user is gone; when a user has the identity's id, 200 with the profile of the first such user |
| UserRoutes.ListUsers | server/src/routes/users.ts:13-25 | 403 iff the requester is not an admin; otherwise one entry per user, with its id |
| UserRoutes.GetUser | server/src/routes/users.ts:28-56 | 401, then 403 unless admin or self, then 404 for an unknown id, otherwise the public columns |
| UserRoutes.GetUserIgnoresCredentials | server/src/routes/users.ts:39-46 | the answer never depends on stored credentials |
| UserRoutes.FindIgnoresCredentials | server/src/routes/users.ts:46 | the id lookup finds the same row up to its credential |
| ProjectRoutes.OwnedBy | server/src/routes/projects.ts:21 | exactly the projects owned by the requester |
| ProjectRoutes.OwnedByAppend | server/src/routes/projects.ts:21 | the owner filter keeps table order |
| ProjectRoutes.ListProjects | server/src/routes/projects.ts:13-27 | 401 without an identity; otherwise the requester's own projects |
| ProjectRoutes.CreateProject | server/src/routes/projects.ts:30-50 | 400 without a title and nothing stored; otherwise one project owned by the requester, answered 201 |
| ProjectRoutes.GetProject | server/src/routes/projects.ts:53-70 | 401, 404 for an unknown id, otherwise the project with no ownership check |
| ProjectRoutes.AnyoneCanReadAProject | server/src/routes/projects.ts:59-65 | every authenticated user reads every existing project |
| ProjectRoutes.PatchProject | server/src/routes/projects.ts:92-95 | an update sets the given fields and `updatedAt` and keeps id, owner and creation time |
| ProjectRoutes.PatchedProjects | server/src/routes/projects.ts:92-95 | the update changes the rows with that id and only those |
| ProjectRoutes.UpdateProject | server/src/routes/projects.ts:73-102 | 401, then 404, then 403 unless owner or admin, otherwise the patched table and the patched row |
| ProjectRoutes.PatchTouchesOnlyThatProject | server/src/routes/projects.ts:94 | any other project is left unchanged |
| ProjectRoutes.DeleteProject | server/src/routes/projects.ts:105-132 | 204 for a missing project; 403 unless owner or admin; otherwise the rows with that id are removed and the answer is 204 |
| ProjectRoutes.MemberRoute | server/src/routes/projects.ts:137-150 | the role refusal iff not admin, otherwise 501 |
| ProjectRoutes.AddMember | server/src/routes/projects.ts:137-142 | admin-only 501 |
| ProjectRoutes.RemoveMember | server/src/routes/projects.ts:145-150 | admin-only 501 |
| ProjectRoutes.MemberRoutesIgnoreOwnership | server/src/routes/projects.ts:88-150 | a member who owns a project may update it but is refused on its member routes |
| TaskRoutes.WithCreator | server/src/routes/tasks.ts:71-75 | the requested ids in order, with the creator appended when absent; the creator is always included |
| TaskRoutes.CreateTask | server/src/routes/tasks.ts:45-95 | 401; 400 without a title; otherwise one task row with the defaults and one assignment per assignee, creator included, answered 201 |
| TaskRoutes.CreatedTaskAssignees | server/src/routes/tasks.ts:71-83 | a new task's assignees read back as the request with the creator added |
| TaskRoutes.GetTask | server/src/routes/tasks.ts:98-127 | 401, 404 for an unknown id, otherwise the row with every assignee, whoever asks |
| TaskRoutes.UpdateData | server/src/routes/tasks.ts:145-152 | only defined fields are copied; a falsy due date becomes null; `updatedAt` is always set |
| TaskRoutes.ApplyChanges | server/src/routes/tasks.ts:155-158 | each field given in the changes takes the given value (a `null` included), each other field keeps its value, and so do the id, status, project and creation time; `updatedAt` is the new time |
| TaskRoutes.UpdatedTasks | server/src/routes/tasks.ts:155-158 | exactly the rows with that id are changed |
| TaskRoutes.UpdateTask | server/src/routes/tasks.ts:130-185 | 401, 404, otherwise the updated rows and assignments and the updated row with its assignees |
| TaskRoutes.UpdateReportsAssignees | server/src/routes/tasks.ts:161-179 | the reported assignees are the new list when given, the old ones otherwise; other tasks keep theirs |
| TaskRoutes.AssigneesOfRowsOther | server/src/routes/tasks.ts:166-170 | inserted rows give no assignee to another task |
| TaskRoutes.DeleteTask | server/src/routes/tasks.ts:188-214 | 204 whether or not the task exists; when it exists its assignments and rows are gone |
| TaskRoutes.AddComment | server/src/routes/tasks.ts:217-242 | 401; 400 without content; otherwise 501; never 201 |
| InMemoryDb.Filter | server/src/db/index.ts:58 | `Array.prototype.filter`: never more rows than the table |
| InMemoryDb.FilterAppend | server/src/db/index.ts:58 | the filter keeps table order: it distributes over concatenation |
| InMemoryDb.FilterCons | server/src/db/index.ts:58 | a row in front is kept or dropped on its own |
| InMemoryDb.Side | server/src/db/index.ts:58-63 | the callback keeps exactly the rows whose match equals the side asked for |
| InMemoryDb.Partition | server/src/db/index.ts:57-64 | the matching or the non-matching rows, never more than the table |
| InMemoryDb.PartitionMembers | server/src/db/index.ts:58-63 | a row is in the result iff it is in the table on that side |
| InMemoryDb.PartitionAppend | server/src/db/index.ts:58 | the filter keeps table order |
| InMemoryDb.PartitionSizes | server/src/db/index.ts:180-187 | every row is on exactly one side |
| InMemoryDb.PartitionEmptyCondition | server/src/db/index.ts:57-64 | the empty object is a condition every row matches: the filter keeps the whole table |
| InMemoryDb.NewItem | server/src/db/index.ts:92-97 | corrected insert row: every data field, a truthy id (`data.id` or the fresh id), and the defaulted timestamps |
| InMemoryDb.NewItemAsWritten | server/src/db/index.ts:92-97 | insert row as written: an own `id` of the data overrides the defaulted one |
| InMemoryDb.NewItemHasId | server/src/db/index.ts:93 | with a non-empty fresh id the corrected row never has a falsy id, and it keeps a truthy own id |
| InMemoryDb.AsWrittenLosesId | server/src/db/index.ts:92-94 | with `{ id: null }` the row as written has a null id and the corrected one the fresh id |
| InMemoryDb.AsWrittenAgreesOtherwise | server/src/db/index.ts:92-97 | both rows agree when the data has no own id or a truthy one |
| InMemoryDb.Merge | server/src/db/index.ts:148-152 | `{ ...item, ...data, updatedAt }`: data wins, the rest of the row stays, `updatedAt` is the new time |
| InMemoryDb.UpdatedRows | server/src/db/index.ts:138-154 | each matching row merged, each other row as it was |
| InMemoryDb.UpdateLeavesOthers | server/src/db/index.ts:147 | a row that does not match is untouched |
| InMemoryDb.UpdateKeepsMatch | server/src/db/index.ts:148-152 | a matched row still matches when the update writes none of the condition's keys |
| InMemoryDb.FindByEmail | server/src/db/index.ts:37 | nothing iff no row has that email; otherwise a row of the table with it (the earliest one: FindByEmailIsEarliest) |
| InMemoryDb.FindByEmailIsEarliest | server/src/db/index.ts:37 | with several rows holding the email, `find` returns the earliest |
| InMemoryDb.Lower | server/src/db/index.ts:33 | `toLowerCase` character by character |
| InMemoryDb.SkipSpaces | server/src/db/index.ts:34 | `\s*`: the maximal run of white space |
| InMemoryDb.NextQuote | server/src/db/index.ts:34 | the first quote at or after a position |
| InMemoryDb.CaptureAt | server/src/db/index.ts:34 | a capture at a position reads `email`, `=`, and a non-empty quote-free text in quotes |
| InMemoryDb.CaptureFrom | server/src/db/index.ts:34-35 | the leftmost match captures a non-empty quote-free text |
| InMemoryDb.CaptureSkips | server/src/db/index.ts:34 | positions without `email` are skipped by the leftmost search |
| InMemoryDb.AllSpaces | server/src/db/index.ts:34 | a run of white space up to a non-space is skipped wholly |
| InMemoryDb.NoQuotes | server/src/db/index.ts:34 | a quote-free run ends at its quote |
| InMemoryDb.CaptureAtLookup | server/src/db/index.ts:34 | `email`, white space, `=`, white space and a quoted text at a position capture exactly that text |
| InMemoryDb.CaptureOfLookup | server/src/db/index.ts:34-36 | with no earlier `email`, the captured email is exactly the quoted text |
| InMemoryDb.MemoryStore.constructor | server/src/db/index.ts:21-27 | the five tables start empty |
| InMemoryDb.MemoryStore.Query | server/src/db/index.ts:31-42 | at most one row; nothing unless the lower-cased text starts with the users-by-email prefix; for a lookup with a captured email, no rows iff no user has that email, and otherwise exactly the first user with it |
| InMemoryDb.MemoryStore.SelectAll | server/src/db/index.ts:70-72 | the whole table (none for an unknown name), the same rows a select with the empty condition `{}` gives |
| InMemoryDb.MemoryStore.SelectWhere | server/src/db/index.ts:50-67 | with a condition, the table filtered by it: the matching rows in table order with their repetitions (so PartitionAppend and SelectAfterInsert apply), a row in it iff it matches; without one, the whole table |
| InMemoryDb.MemoryStore.InsertReturning | server/src/db/index.ts:85-101 | creates a missing table and appends one row; nothing else changes; answers that row |
| InMemoryDb.MemoryStore.InsertExecute | server/src/db/index.ts:102-117 | the same insert, answering nothing |
| InMemoryDb.MemoryStore.RowMatches | server/src/db/index.ts:139-145 | the key loop with its `break` decides exactly `Matches` |
| InMemoryDb.MemoryStore.UpdateWhere | server/src/db/index.ts:132-157 | the table becomes `UpdatedRows`: no row added, removed or moved |
| InMemoryDb.MemoryStore.DeleteWhere | server/src/db/index.ts:172-189 | a missing table stays missing and answers nothing; otherwise the non-matching rows remain and `rowCount` is the number removed |
| InMemoryDb.DeleteCountsMatches | server/src/db/index.ts:187 | `rowCount` equals the number of rows a select with that condition returns |
| InMemoryDb.SelectAfterDeleteIsEmpty | server/src/db/index.ts:180-185 | after a delete, a select with that condition finds nothing |
| InMemoryDb.SelectAfterInsert | server/src/db/index.ts:99 | a select after an insert sees the old matches, plus the new row iff it matches |
| MockApi.IndexOfId | client/src/services/mockApi.ts:179 | `findIndex`: -1 iff no row has the id, otherwise the first index with it |
| MockApi.WithNumberedId | client/src/services/mockApi.ts:169-172 | `{ id: String(n), ...data }`: data's own `id` wins |
| MockApi.RemoveAt | client/src/services/mockApi.ts:199 | `splice(i, 1)`: the other rows in order |
| MockApi.TasksOfProject | client/src/services/mockApi.ts:213 | exactly the tasks of that project |
| MockApi.TasksOfProjectAppend | client/src/services/mockApi.ts:213 | the filter keeps array order |
| MockApi.FindUserByEmail | client/src/services/mockApi.ts:105 | nothing iff no user has the email |
| MockApi.MockStore.constructor | client/src/services/mockApi.ts:4-96 | the seeded users, projects and tasks |
| MockApi.MockStore.Login | client/src/services/mockApi.ts:103-117 | succeeds iff the email is known and the password is the mock one; every failure has one message |
| MockApi.MockStore.Register | client/src/services/mockApi.ts:119-139 | a taken email fails and nothing changes; otherwise one member numbered by the new length is appended |
| MockApi.MockStore.GetProjectById | client/src/services/mockApi.ts:158-165 | not found iff no project has the id; otherwise the first one with it |
| MockApi.MockStore.CreateProject | client/src/services/mockApi.ts:167-175 | appends the numbered project and answers it |
| MockApi.MockStore.UpdateProject | client/src/services/mockApi.ts:177-190 | not found and nothing changes, or the first project with the id is merged in place |
| MockApi.MockStore.DeleteProject | client/src/services/mockApi.ts:192-201 | not found and nothing changes, or that project is spliced out |
| MockApi.MockStore.GetTasksByProject | client/src/services/mockApi.ts:211-214 | the tasks of the project |
| MockApi.MockStore.GetTaskById | client/src/services/mockApi.ts:216-223 | not found iff no task has the id |
| MockApi.MockStore.CreateTask | client/src/services/mockApi.ts:225-233 | appends the numbered task and answers it |
| MockApi.MockStore.UpdateTask | client/src/services/mockApi.ts:235-248 | not found and nothing changes, or the task is merged in place |
| MockApi.MockStore.UpdateTaskStatus | client/src/services/mockApi.ts:250-259 | not found and nothing changes, or only that task's status changes |
| MockApi.MockStore.DeleteTask | client/src/services/mockApi.ts:261-270 | not found and nothing changes, or that task is spliced out |
| MockApi.LoginFailsAlike | client/src/services/mockApi.ts:106-112 | an unknown email and a wrong password fail alike |
| MockApi.RegisteredCanLogIn | client/src/services/mockApi.ts:104-137 | a new user is found by the login's lookup |
| MockApi.StatusUpdateChangesOnlyStatus | client/src/services/mockApi.ts:257 | no other field and no other task changes |
| MockApi.NumberedIdsCanCollide | client/src/services/mockApi.ts:228-268 | after one delete the next created task repeats an existing id |
| AuthStore.SetAuth | client/src/store/authStore.ts:20 | token and user set, signed in |
| AuthStore.ClearAuth | client/src/store/authStore.ts:21 | token and user cleared, signed out |
| AuthStore.SetUser | client/src/store/authStore.ts:22 | only the user changes |
| AuthStore.ActionsKeepConsistency | client/src/store/authStore.ts:17-22 | signed in iff a token is held, after every action |
| AuthStore.ClearAuthIdempotent | client/src/store/authStore.ts:21 | clearing twice is clearing once; clearing forgets a sign-in |
| AuthStore.SetAuthOverridesSetUser | client/src/store/authStore.ts:20-22 | a later `setAuth` overrides an earlier `setUser` |
| AuthStore.Store.constructor | client/src/store/authStore.ts:17-19 | starts signed out |
| AuthStore.Store.SetAuthAction | client/src/store/authStore.ts:20 | the store becomes `SetAuth` of its old state and stays consistent |
| AuthStore.Store.ClearAuthAction | client/src/store/authStore.ts:21 | the store becomes `ClearAuth` of its old state |
| AuthStore.Store.SetUserAction | client/src/store/authStore.ts:22 | the store becomes `SetUser` of its old state and keeps consistency |
| RegisterForm.EmailValidIff | client/src/components/auth/Register.tsx:28-31 | the pattern holds iff no white space, exactly one `@`, something before it, and a dot strictly inside the part after it |
| RegisterForm.ValidEmailShape | client/src/components/auth/Register.tsx:29 | a matching address has that shape |
| RegisterForm.PlainAroundAt | client/src/components/auth/Register.tsx:29 | with one `@` and plain characters elsewhere, neither side of the `@` holds another and the address has no white space |
| RegisterForm.ShapeIsValidEmail | client/src/components/auth/Register.tsx:29 | an address of that shape matches |
| RegisterForm.SimpleAddressIsValid | client/src/components/auth/Register.tsx:29 | `a@b.c` matches |
| RegisterForm.SecondAtIsRefused | client/src/components/auth/Register.tsx:29 | a second `@` is refused |
| RegisterForm.DotAfterAtIsRefused | client/src/components/auth/Register.tsx:29 | a dot right after the `@` is refused |
| RegisterForm.SubmitRegister | client/src/components/auth/Register.tsx:33-60 | the checks in order (name, email, password length, confirmation), and `register` is called iff all pass |
| RegisterForm.RegisterError | client/src/components/auth/Register.tsx:64-67 | the rejection's own message when it is non-empty, otherwise the generic `RegisterFailed` text; never empty |
| RegisterForm.HelpersAgreeWithSubmit | client/src/components/auth/Register.tsx:106-135 | with every field filled, the helper texts are empty iff a submit reaches `register` |
| RegisterForm.HelperOnlyForFilledField | client/src/components/auth/Register.tsx:106-135 | a helper text shows only for a filled field and is then the submit's message for it |
| LoginForm.SubmitLogin | client/src/components/auth/Login.tsx:33-50 | an invalid email is reported first, then a short password, and otherwise `login` is called with both |
| LoginForm.LoginError | client/src/components/auth/Login.tsx:54 | the rejection's own message when it is non-empty, otherwise the generic `LoginFailed` text; never empty |
| LoginForm.HandleOAuthLogin | client/src/components/auth/Login.tsx:60-63 | always an error naming the provider, never a login |
| LoginForm.RegisteredCredentialsPassLogin | client/src/components/auth/Login.tsx:38-46 | whatever sign-up sends to `register`, sign-in lets through to `login` |
| RegisterPage.WithValue | client/src/pages/Register.tsx:36-39 | the field takes the value, the others keep theirs |
| RegisterPage.FormErrorsMeaning | client/src/pages/Register.tsx:55-88 | a field is in the dictionary `validateForm` builds iff its check fails, with that check's message |
| RegisterPage.FieldRules | client/src/pages/Register.tsx:59-87 | each field's rule: names not blank after trimming, email matching the unanchored pattern (so not blank), password at least 8 characters, confirmation non-empty and equal |
| RegisterPage.LooseIsNotBlank | client/src/pages/Register.tsx:69-73 | a matching address is never blank |
| RegisterPage.ValidIffEveryFieldPasses | client/src/pages/Register.tsx:89-90 | the form is valid iff every field passes |
| RegisterPage.StrictImpliesLoose | client/src/pages/Register.tsx:71 | whatever the anchored pattern of the component forms accepts, this one accepts too |
| RegisterPage.LooseAcceptsSurroundingText | client/src/pages/Register.tsx:71 | `x a@b.c y` is accepted here and refused by the anchored pattern |
| RegisterPage.Page.constructor | client/src/pages/Register.tsx:23-31 | empty form, no errors |
| RegisterPage.Page.ValidateForm | client/src/pages/Register.tsx:55-91 | stores `FormErrors(form)` and answers whether it is empty |
| RegisterPage.Page.HandleChange | client/src/pages/Register.tsx:34-53 | stores the value, blanks that field's shown error, drops a shown API error |
| RegisterPage.Page.HandleSubmit | client/src/pages/Register.tsx:93-110 | no request for an invalid form; otherwise the four fields are sent and the API error is cleared |
| RegisterPage.Page.RegistrationRejected | client/src/pages/Register.tsx:118-122 | the error's message, or the generic text |
| RegisterPage.ChangeKeepsOtherErrors | client/src/pages/Register.tsx:43-47 | typing in one field leaves the other fields' errors unchanged |
| TasksPage.Toggled | client/src/pages/TasksPage.tsx:88 | every task with that id flips `isDone`; the others are unchanged |
| TasksPage.WithDone | client/src/pages/TasksPage.tsx:95 | every task with that id gets the given `isDone` |
| TasksPage.Without | client/src/pages/TasksPage.tsx:102 | exactly the tasks with another id |
| TasksPage.WithoutAppend | client/src/pages/TasksPage.tsx:102 | the filter keeps list order |
| TasksPage.WithoutAbsent | client/src/pages/TasksPage.tsx:102 | removing an absent id changes nothing |
| TasksPage.Replaced | client/src/pages/TasksPage.tsx:125 | the edited task takes the place of each task with its id |
| TasksPage.ToggleTwice | client/src/pages/TasksPage.tsx:88 | toggling twice gives the list back |
| TasksPage.RevertRestores | client/src/pages/TasksPage.tsx:86-95 | the revert restores the list when every task with that id shared the clicked value |
| TasksPage.RevertWithSharedId | client/src/pages/TasksPage.tsx:95 | with two tasks under one id the revert cannot restore both |
| TasksPage.UserMapOf | client/src/pages/TasksPage.tsx:43-46 | a key for exactly the fetched ids |
| TasksPage.UserMapHoldsLastName | client/src/pages/TasksPage.tsx:44-45 | an id maps to the name of the last user with that id |
| TasksPage.BuildUserMap | client/src/pages/TasksPage.tsx:43-46 | the fill loop builds `UserMapOf` |
| TasksPage.AssigneeLabel | client/src/pages/TasksPage.tsx:202 | the mapped name, or `Unknown User` when it is missing or empty |
| TasksPage.UnmappedIsUnknown | client/src/pages/TasksPage.tsx:202 | an id no fetched user has shows as unknown |
| TasksPage.NamelessUsersMapToNothing | client/src/pages/TasksPage.tsx:43-46 | users without a `username` map every id to nothing |
| TasksPage.NamelessUsersShowUnknown | client/src/pages/TasksPage.tsx:202 | when no fetched user has a `username`, every assignee shows as `Unknown User` |
| TasksPage.Page.constructor | client/src/pages/TasksPage.tsx:11-27 | empty list, no errors |
| TasksPage.Page.Loaded | client/src/pages/TasksPage.tsx:39-47 | the fetched tasks and the user map |
| TasksPage.Page.HandleCreateTask | client/src/pages/TasksPage.tsx:60-83 | an empty title stops with an error; otherwise the request assigns the current user; a created task is appended and the form cleared; a refusal shows its message |
| TasksPage.Page.HandleToggleTaskStatus | client/src/pages/TasksPage.tsx:85-97 | the toggled list, or after a refusal the reverted list and the error |
| TasksPage.Page.HandleDeleteTask | client/src/pages/TasksPage.tsx:99-111 | the filtered list, or after a refusal the saved list and the error |
| TasksPage.Page.HandleUpdateTask | client/src/pages/TasksPage.tsx:124-127 | the replaced list |
| TaskDialog.FindUser | client/src/components/TaskDialog.tsx:119 | nothing iff no user has the id |
| TaskDialog.ResolveAssignees | client/src/components/TaskDialog.tsx:117-120 | only known users whose id was listed, never more than the ids |
| TaskDialog.ResolvedIdsAreKnownIds | client/src/components/TaskDialog.tsx:118-120 | resolving keeps the known ids in order and drops the others |
| TaskDialog.AllKnownKeepsIds | client/src/components/TaskDialog.tsx:118-120 | when every id is known nothing is dropped |
| TaskDialog.Ids | client/src/components/TaskDialog.tsx:170 | the ids of the assignees, in order |
| TaskDialog.IdsAppend | client/src/components/TaskDialog.tsx:170 | the id list distributes over appending |
| TaskDialog.InitialFields | client/src/components/TaskDialog.tsx:107-141 | editing: the task's fields with their defaults; new: an empty form for the given project, assigned to the current user |
| TaskDialog.ValidateForm | client/src/components/TaskDialog.tsx:144-155 | valid iff the trimmed title is not empty, with the title error otherwise |
| TaskDialog.HandleSave | client/src/components/TaskDialog.tsx:158-175 | nothing for a blank title; otherwise the fields, the assignee ids, and the task id when editing a task that has one |
| TaskDialog.EditUnchangedRoundTrip | client/src/components/TaskDialog.tsx:107-175 | opening a task whose assignees are known and saving it unchanged sends its title, its assignee ids and its own id |
| TaskDialog.NewTaskAssignsCurrentUser | client/src/components/TaskDialog.tsx:125-140 | a new task starts assigned to the current user, pending and medium, and cannot be saved with its empty title |
| EditTaskModal.InitialState | client/src/components/EditTaskModal.tsx:12-17 | the task's fields; the due date is its text before the first `T` |
| EditTaskModal.Payload | client/src/components/EditTaskModal.tsx:48-55 | an empty description or due date goes out as null |
| EditTaskModal.DatePartRoundTrip | client/src/components/EditTaskModal.tsx:15-53 | the date part of an ISO timestamp survives opening and saving |
| EditTaskModal.UntouchedSave | client/src/components/EditTaskModal.tsx:12-55 | saving an untouched modal keeps every field, with a blank description sent as null |
| EditTaskModal.Modal.constructor | client/src/components/EditTaskModal.tsx:20-21 | open, not saving, no error |
| EditTaskModal.Modal.HandleSave | client/src/components/EditTaskModal.tsx:45-67 | success hands on the task and closes; a refusal shows the error and stays open |
| KanbanBoard.EmptyColumn | client/src/components/tasks/KanbanBoard.tsx:37-41 | the three configured columns |
| KanbanBoard.ColumnOf | client/src/components/tasks/KanbanBoard.tsx:45 | the column whose id is the status, else the first |
| KanbanBoard.ColumnTasks | client/src/components/tasks/KanbanBoard.tsx:44-47 | exactly the tasks whose status selects the column, in input order |
| KanbanBoard.ColumnTasksStep | client/src/components/tasks/KanbanBoard.tsx:44-47 | one more task joins the end of its own column and no other |
| KanbanBoard.Distribute | client/src/components/tasks/KanbanBoard.tsx:44-47 | the loop gives each column its `ColumnTasks` |
| KanbanBoard.ColumnSizesAddUp | client/src/components/tasks/KanbanBoard.tsx:44-47 | the column sizes add up to the number of tasks |
| KanbanBoard.ExactlyOneColumn | client/src/components/tasks/KanbanBoard.tsx:45-46 | a task is in the column its status selects and in no other |
| KanbanBoard.UnknownStatusGoesToPending | client/src/components/tasks/KanbanBoard.tsx:45 | `in-progress` lands in the first column |
| KanbanBoard.HandleDragEnd | client/src/components/tasks/KanbanBoard.tsx:63-77 | a status change iff dropped into another column |
| KanbanBoard.SameColumnDropCallsNothing | client/src/components/tasks/KanbanBoard.tsx:74-76 | reordering within a column calls nothing |
| KanbanBoard.GetPriorityColor | client/src/components/tasks/KanbanBoard.tsx:49-60 | high, medium, low and anything else map to their colours, each exactly |
| NotificationsMenu.UnreadCount | client/src/components/notifications/NotificationsMenu.tsx:104-107 | at most the length, and 0 iff all are read |
| NotificationsMenu.MarkRead | client/src/components/notifications/NotificationsMenu.tsx:121-126 | the ones with that id become read, nothing else changes |
| NotificationsMenu.MarkAllRead | client/src/components/notifications/NotificationsMenu.tsx:141 | all read, nothing else changed |
| NotificationsMenu.MarkReadCount | client/src/components/notifications/NotificationsMenu.tsx:121-127 | the badge drops by exactly the unread notifications with that id |
| NotificationsMenu.MarkAllReadCount | client/src/components/notifications/NotificationsMenu.tsx:140-144 | after mark-all the count is 0 |
| NotificationsMenu.NavigationTarget | client/src/components/notifications/NotificationsMenu.tsx:129-134 | the task when it has a task id, else the project, else nowhere |
| NotificationsMenu.MockUnreadCount | client/src/components/notifications/NotificationsMenu.tsx:56-97 | two of the demo notifications are unread |
| NotificationsMenu.MenuState.constructor | client/src/components/notifications/NotificationsMenu.tsx:50-51 | empty list, badge 0 |
| NotificationsMenu.MenuState.Load | client/src/components/notifications/NotificationsMenu.tsx:54-101 | the demo list and a badge of 2 |
| NotificationsMenu.MenuState.HandleNotificationClick | client/src/components/notifications/NotificationsMenu.tsx:119-137 | marks it read, recounts, answers where to navigate |
| NotificationsMenu.MenuState.HandleMarkAllAsRead | client/src/components/notifications/NotificationsMenu.tsx:140-144 | all read, badge 0 |
| NotificationsMenu.FloorDiv | client/src/components/notifications/NotificationsMenu.tsx:151 | `Math.floor(a / b)` for a positive `b` |
| NotificationsMenu.FormatRelativeTime | client/src/components/notifications/NotificationsMenu.tsx:147-164 | each bucket iff its range: under a minute, minutes, hours, one day, under a week, otherwise the date |
| NotificationsMenu.MockNotificationTimes | client/src/components/notifications/NotificationsMenu.tsx:56-97 | the demo times read as 30 minutes, 1 hour, yesterday, 3 and 4 days ago |
| NotificationsMenu.BucketsAreOrdered | client/src/components/notifications/NotificationsMenu.tsx:147-164 | an older date never gets a more recent bucket |
| ProjectCard.Slice | client/src/components/projects/ProjectCard.tsx:36 | `slice(0, end)`: the prefix of the length the end selects, counting a negative end from the back |
| ProjectCard.TruncateText | client/src/components/projects/ProjectCard.tsx:34-37 | short texts unchanged; longer ones their first `maxLength` characters plus `...` |
| ProjectCard.TruncatedFitsWithEllipsis | client/src/components/projects/ProjectCard.tsx:34-37 | a shortened text is left alone by a limit that allows for the ellipsis |
| ProjectCard.GetStatusColor | client/src/components/projects/ProjectCard.tsx:44-55 | each status maps to its colour, each exactly |

## Left out

- The PBKDF2 key derivation and the random salt: the digest is a function parameter and the salt bytes are a parameter.
- Signing and verifying JSON Web Tokens: both are parameters. Expiry is whatever the verifier decides.
- The Postgres and SQLite drivers, the migrations and the choice between drivers: the route handlers run over `ServerModel.Tables`. `InMemoryDb` is modelled on its own, not composed with the routes.
- The `GET /api/tasks` join in server/src/routes/tasks.ts:14-42: it names columns the tables do not declare, and a join is not modelled.
- UserRoutes.ListUsers: answers the user ids only. The `username` column it selects is not part of the users table.
- Column names that differ between the schema and the handlers are not checked: the model uses the names the handlers write, such as a project's `title`.
- Date parsing and `new Date(...)` are not modelled. Dates are integers (milliseconds) or opaque texts, and invalid dates and `NaN` are outside the model.
- `toISOString` and locale date formatting are left abstract.
- InMemoryDb.Lower: lower-cases ASCII letters only. This is enough for comparing against the ASCII prefix.
- InMemoryDb: conditions that are not plain objects are not modelled.
- Concurrency, `async`/`await` timing, the artificial delay of the mock services and the `finally` blocks: each handler is one atomic step.
- Loading and saving flags are left out.
- Aliasing between the mock arrays and the objects handed to callers is left out: objects are values.
- NotificationsMenu.FormatRelativeTime: takes one `now` for the clock.
- InMemoryDb.MemoryStore.UpdateWhere: stamps every updated row with one `now`, where the source calls `new Date()` once per row. Likewise InsertReturning takes one `now` for both `createdAt` and `updatedAt`, where the source reads the clock twice. Readings within one call are taken as equal.
- InMemoryDb.MemoryStore.InsertReturning: stores the corrected row NewItem, not the row as written. With a falsy own `id` in the data, the source stores that falsy id (NewItemAsWritten, see Findings), and the model stores the fresh id.
- InMemoryDb.MemoryStore.InsertExecute: stores the corrected row NewItem, as InsertReturning does, not the row as written.
- RegisterForm.SubmitRegister: counts the password's length in Unicode characters, where JavaScript's `length` counts UTF-16 code units. The two differ on characters outside the Basic Multilingual Plane: three emoji are 6 code units, enough for `length >= 6`, but the model counts 3.
- LoginForm.SubmitLogin: counts the password's length in Unicode characters, not UTF-16 code units, as SubmitRegister does.
- RegisterPage.FieldRules: the 8-character rule counts Unicode characters, not UTF-16 code units; so do RegisterPage.FormErrorsMeaning and RegisterPage.Page.ValidateForm.
- ProjectCard.Slice: slices Unicode characters, where `String.prototype.slice` slices UTF-16 code units and can cut a surrogate pair in half.
- ProjectCard.TruncateText: measures and cuts in Unicode characters, not UTF-16 code units, as Slice does.
- Persistence, routing and navigation, and rendering.
- TaskDialog's project and mock-user fetching effect (client/src/components/TaskDialog.tsx:76-105): the users and projects are parameters.
- The HTTP wiring of the routers is left out, as are the `try`/`catch` branches that answer 500 on a store failure. Store calls cannot fail in the model.

## Findings

| source | as written | input that shows it | evidently intended | confidence | as-written member | corrected member |
|---|---|---|---|---|---|---|
| server/src/db/index.ts:92-97 | the new row is `{ id: data.id \|\| uuidv4(), ...data, … }`, so the spread of `data` overwrites the defaulted id | `insert(t).values({ id: null }).returning()` stores a row whose `id` is `null` | a row always gets an id: `data.id` when it is truthy, a fresh one otherwise | not executed | InMemoryDb.NewItemAsWritten (shown by InMemoryDb.AsWrittenLosesId) | InMemoryDb.NewItem (proved by InMemoryDb.NewItemHasId) |

Other behaviours the proofs make visible. They are modelled as written and are not listed as findings, because the code marks them as unfinished or they may be intended:
- Mock ids can collide after a delete: MockApi.NumberedIdsCanCollide.
- A mock status of `in-progress` shows in the pending column: KanbanBoard.UnknownStatusGoesToPending.
- The member routes check the role, not ownership: ProjectRoutes.MemberRoutesIgnoreOwnership.
- Any authenticated user reads any project: ProjectRoutes.AnyoneCanReadAProject.
- The task list reads `username`, which the users have no field for, so assignees show as `Unknown User`: TasksPage.NamelessUsersShowUnknown.
- Reverting a failed toggle cannot restore tasks that share an id: TasksPage.RevertWithSharedId.
- The sign-up page's email pattern is not anchored: RegisterPage.LooseAcceptsSurroundingText.
