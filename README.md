# Human Resource Management System — a verified model of its core

The system is a small multi-tenant HR tool. An administrator registers an **organisation** together
with a first **user**, logs in and receives a bearer token, and then manages the organisation's
**employees** and **teams** and the **assignments** of employees to teams. Every change is recorded
in an activity **log**. The backend is an Express server over SQLite: a schema of six tables,
a data-access layer of organisation-scoped queries and updates, request handlers for auth,
employees and teams, and an authentication gate in front of the protected routes. The React
frontend filters the employee list, draws dashboard figures and edits teams in place.

This Dafny project models that core and proves what it promises:

- `schema.dfy`: one record type per table, and the table constraints as predicates. Those
  constraints are NOT NULL columns as plain types (nullable columns are `Option`), AUTOINCREMENT,
  UNIQUE email, UNIQUE (employee, team), and the foreign keys.
- `models.dfy`: the data-access layer. The reads are functions over the tables. The `Store` class
  holds one sequence per table plus the AUTOINCREMENT counters, and its methods insert, update and
  delete rows in place while keeping the schema's constraints (`Store.Valid`).
- `team_controller.dfy`, `employee_controller.dfy`, `auth_controller.dfy`: the request handlers.
  The read handlers are functions of the store. The others are methods that take the store, return
  the reply (status, message, data) and state the store and log they leave behind. The `for…of` loop of assignEmployee becomes a `while` loop with
  invariants. It is proved against `Plan`, a function that decides the batch id by id.
- `auth_middleware.dfy`: the bearer-token gate, covering header parsing and error classification.
- `employee_page.dfy`, `dashboard_page.dfy`, `teams_page.dfy`: the page logic. This covers the
  employee filter, the panel toggles, the dashboard figures, and the teams page's edit form and
  local list updates. The panels and the page state are classes.
- `js.dfy`, `seqs.dfy`, `wrappers.dfy`, `http.dfy`: small shared pieces. These are JavaScript
  truthiness and the `||` and `!== undefined` update rules, sequence filtering with its laws,
  Option and Result, and the reply type.

Some facts hold by typing:

- Every user, employee and team has an organisation id, and every team has a name.
- An employee's names, email and phone may be null.
- A log row always has an action, while its organisation, user and meta may be null.

The library calls (bcrypt, jsonwebtoken) enter as function values: `AuthController.Crypto` and
the `verify` parameter of `AuthMiddleware.Authenticate`. The properties that need them assume
what the libraries guarantee: `Sound` (a password matches its own hash) and `SignVerifies` (a signed
token verifies to the claims signed into it). `SignVerifies` holds at every moment, while
jsonwebtoken rejects a token after seven days: token expiry is left out (see below).

## Model

| member | source | states |
|---|---|---|
| `Js.Column` | backend/src/models/index.js:55-61 | a bound parameter: a string binds itself, while `undefined` and `null` both bind NULL |
| `Js.OrElse` | backend/src/controllers/employeeController.js:92-93 | the truthiness fallback (logical or): a truthy body value wins, anything else keeps the stored value |
| `Js.DefinedOr` | backend/src/controllers/employeeController.js:94-95 | `value !== undefined ? value : stored`: any present value wins, even `""` or `null` |
| `Js.RulesDifferOnFalsyPresentValues` | backend/src/controllers/employeeController.js:89-96 | against a non-empty stored value, the truthiness fallback and the `!== undefined` fallback give different columns exactly when the body value is `null` or `""` |
| `Schema.FilterKeepsAutoIncremented` | backend/src/setup.js:57 | deleting rows keeps ids strictly increasing along the table and below the next id to be issued |
| `Schema.OneRowPerPair` | backend/src/setup.js:56-65 | under UNIQUE(employee_id, team_id) the join table has exactly one row per (employee, team) pair it holds |
| `Models.FindOrganisation` | backend/src/models/index.js:10-12 | finds a row exactly when an organisation with that id exists, and the row has that id |
| `Models.FindUserByEmail` | backend/src/models/index.js:25-27 | finds a user with that email, or none exactly when no user in any organisation has it |
| `Models.FindUserById` | backend/src/models/index.js:29-31 | finds a user with that id, or none exactly when no user in any organisation has it; no handler or the gate calls it |
| `Models.FindEmployees` | backend/src/models/index.js:44-46 | returns exactly the employees of the organisation |
| `Models.FindEmployee` | backend/src/models/index.js:48-53 | finds a row only when both id and organisation match, and nothing when no row matches both |
| `Models.FindTeams` | backend/src/models/index.js:91-93 | returns exactly the teams of the organisation |
| `Models.FindTeam` | backend/src/models/index.js:95-100 | finds a row only when both id and organisation match, and nothing when no row matches both |
| `Models.FindEmployeeIsScoped` | backend/src/models/index.js:48-53 | with unique ids, looking up an existing employee's id gives that row in its own organisation and nothing in any other |
| `Models.FindTeamIsScoped` | backend/src/models/index.js:95-100 | with unique ids, looking up an existing team's id gives that row in its own organisation and nothing in any other |
| `Models.EmployeeTeams` | backend/src/models/index.js:71-78 | returns exactly the organisation's teams that have a join row with the employee |
| `Models.TeamMembers` | backend/src/models/index.js:118-125 | returns exactly the organisation's employees that have a join row with the team |
| `Models.MembershipIsSymmetric` | backend/src/models/index.js:71-78 | an employee is among a team's members exactly when the team is among that employee's teams |
| `Models.Limit` | backend/src/models/index.js:163 | SQL LIMIT: the first n rows, or all rows when n is negative or at least the row count |
| `Models.OrgLogs` | backend/src/models/index.js:163 | exactly the log rows whose organisation is the given one; rows with a NULL organisation are never included |
| `Models.RecentLogs` | backend/src/models/index.js:161-170 | at most `limit` rows, all of them log rows of that organisation |
| `Models.NewestFirstPrefixFalls` | backend/src/models/index.js:163 | in a log growing in time, any newest-first prefix has strictly falling timestamps |
| `Models.RecentLogsNewestFirst` | backend/src/models/index.js:161-170 | Log.findAll lists its rows strictly newest first |
| `Models.OmittedRowIsOlder` | backend/src/models/index.js:163 | a row left out of the newest-first prefix is older than every row kept |
| `Models.RecentLogsAreTheNewest` | backend/src/models/index.js:161-170 | the rows returned are the newest ones: all of them when the limit allows, and any organisation row left out is older than every row returned |
| `Models.UpdateEmployees` | backend/src/models/index.js:55-61 | the one (id, organisation) row takes all four values; ids, organisations, every other row and the row count are unchanged |
| `Models.UpdateTeams` | backend/src/models/index.js:102-108 | the one (id, organisation) row takes name and description; ids, organisations, every other row and the row count are unchanged |
| `Models.WithoutEmployee` | backend/src/models/index.js:63-69 | keeps exactly the rows other than the (id, organisation) one |
| `Models.WithoutTeam` | backend/src/models/index.js:110-116 | keeps exactly the rows other than the (id, organisation) one |
| `Models.DetachEmployee` | backend/src/setup.js:61 | ON DELETE CASCADE: keeps exactly the join rows that do not reference the employee |
| `Models.DetachTeam` | backend/src/setup.js:62 | ON DELETE CASCADE: keeps exactly the join rows that do not reference the team |
| `Models.WithoutPair` | backend/src/models/index.js:142-148 | keeps exactly the join rows other than the (employee, team) one |
| `Models.DetachEmployeeKeepsReferences` | backend/src/setup.js:61-63 | after an employee delete and its cascade, every join row still references existing rows and pairs stay unique |
| `Models.DetachTeamKeepsReferences` | backend/src/setup.js:61-63 | after a team delete and its cascade, every join row still references existing rows and pairs stay unique |
| `Models.AppendedRecords` | backend/src/models/index.js:153-159 | appending one log row extends what has been written since an earlier point by exactly that row |
| `Models.Store.constructor` | backend/src/setup.js:5-77 | all tables start empty, every AUTOINCREMENT counter at 1, and the constraints hold |
| `Models.Store.CreateOrganisation` | backend/src/models/index.js:3-8 | appends one organisation whose id exceeds every earlier id; constraints kept |
| `Models.Store.CreateUser` | backend/src/models/index.js:17-23 | succeeds exactly when the organisation exists and no user anywhere has the email, appending one user with a fresh, larger id; otherwise nothing changes |
| `Models.Store.CreateEmployee` | backend/src/models/index.js:36-42 | succeeds exactly when the organisation exists, appending one employee with a fresh, larger id; otherwise nothing changes |
| `Models.Store.UpdateEmployee` | backend/src/models/index.js:55-61 | the employees table becomes `UpdateEmployees` of the old one; constraints kept |
| `Models.Store.DeleteEmployee` | backend/src/models/index.js:63-69 | answers true exactly when the (id, organisation) row existed; afterwards no such row exists, and its join rows are gone by cascade |
| `Models.Store.CreateTeam` | backend/src/models/index.js:83-89 | succeeds exactly when the organisation exists, appending one team with a fresh, larger id; otherwise nothing changes |
| `Models.Store.UpdateTeam` | backend/src/models/index.js:102-108 | the teams table becomes `UpdateTeams` of the old one; constraints kept |
| `Models.Store.DeleteTeam` | backend/src/models/index.js:110-116 | answers true exactly when the (id, organisation) row existed; afterwards no such row exists, and its join rows are gone by cascade |
| `Models.Store.AssignEmployee` | backend/src/models/index.js:127-140 | an absent pair is added as one new row, answering true; a present pair answers false and changes nothing; a dangling reference is an error and changes nothing |
| `Models.Store.UnassignEmployee` | backend/src/models/index.js:142-148 | answers true exactly when the pair was present; afterwards the pair is absent and every other pair remains |
| `Models.Store.CreateLog` | backend/src/models/index.js:153-159 | appends exactly one row, stamped with the current time, with the given organisation, user, action and meta (NULL when none) |
| `TeamController.ListTeams` | backend/src/controllers/teamController.js:3-22 | one entry per team of the caller's organisation, in order, each with exactly its members and `employeeCount` equal to their number |
| `TeamController.GetTeam` | backend/src/controllers/teamController.js:24-43 | 404 "Team not found" exactly when the team is not the caller's; otherwise 200 with the team and exactly its members |
| `TeamController.CreateTeam` | backend/src/controllers/teamController.js:45-69 | a falsy name gives 400 with no team and no log; otherwise one team in the caller's organisation, one `team_created` log row and 201 |
| `TeamController.FullName` | backend/src/controllers/teamController.js:171 | the logged employee name: first and last name joined by a space, a NULL name printed as "null" |
| `TeamController.UpdatedTeam` | backend/src/controllers/teamController.js:82-87 | a falsy name keeps the stored name; a description that is present replaces the stored one, so `""` stores "" and `null` clears it; an absent one keeps it |
| `TeamController.UpdatedTeamIdempotent` | backend/src/controllers/teamController.js:82-87 | applying the same update twice writes what applying it once does |
| `TeamController.UpdateTeamsReadBack` | backend/src/models/index.js:95-108 | after the update the (id, organisation) lookup finds exactly the row written |
| `TeamController.UpdateTeam` | backend/src/controllers/teamController.js:71-103 | 404 with nothing changed when the team is not the caller's; otherwise the row becomes `UpdatedTeam`, one `team_updated` log row is written, and the reply carries the written row |
| `TeamController.DeleteTeam` | backend/src/controllers/teamController.js:105-134 | 404 with nothing changed when the team is not the caller's; otherwise the team and its join rows go, no employee lists it any more, and one `team_deleted` log row keeps its name |
| `TeamController.IdsToAssign` | backend/src/controllers/teamController.js:148-152 | `employeeIds` wins whenever it is given, and the batch is empty only for an explicit empty array; otherwise the single id, even a missing one |
| `TeamController.StepOf` | backend/src/controllers/teamController.js:158-177 | an id is "not found" exactly when it is missing or names no employee of the organisation; otherwise it is "already assigned" exactly when its pair is present |
| `TeamController.Plan` | backend/src/controllers/teamController.js:156-178 | the loop's decisions, one step per input id, each id judged against the pairs present when the loop reaches it |
| `TeamController.ResultsFollowInput` | backend/src/controllers/teamController.js:156-178 | one result per input id, in input order, each naming its id |
| `TeamController.NotFoundIsForeignOrMissing` | backend/src/controllers/teamController.js:158-162 | the k-th result is "Employee not found" exactly when the k-th id names no employee of the organisation |
| `TeamController.PresentPairIsAlreadyAssigned` | backend/src/controllers/teamController.js:164-177 | an employee whose pair is already present is reported "Already assigned" wherever it appears in the batch |
| `TeamController.LaterDuplicateIsAlreadyAssigned` | backend/src/controllers/teamController.js:156-178 | a repeated id later in the same batch is reported "Already assigned", so it adds no second row and no second log |
| `TeamController.FreshFirstIsAssigned` | backend/src/controllers/teamController.js:164-177 | an employee of the organisation whose pair is absent and who was not named earlier in the batch is assigned, adding one row and one log |
| `TeamController.AssignOne` | backend/src/controllers/teamController.js:158-177 | one loop iteration: the result of that id's step; the join table gains exactly that step's pair; one `employee_assigned_to_team` log row exactly when a pair was added |
| `TeamController.AssignBatch` | backend/src/controllers/teamController.js:154-178 | the loop yields the planned results, keeps the old join rows and adds exactly the planned pairs, and writes exactly one log row per added pair, in order |
| `TeamController.AssignEmployee` | backend/src/controllers/teamController.js:136-188 | 404 with nothing changed when the team is not the caller's; 400 only for an explicit empty array; otherwise 200 with the batch results, and the batch's rows and logs |
| `TeamController.UnassignEmployee` | backend/src/controllers/teamController.js:190-232 | checks a missing id (400), the team, the employee, then the pair (404s), in that order, changing nothing on any of them; otherwise removes exactly that pair and writes one `employee_unassigned_from_team` log row |
| `EmployeeController.ListEmployees` | backend/src/controllers/employeeController.js:3-22 | one entry per employee of the caller's organisation, in order, each with exactly its teams |
| `EmployeeController.GetEmployee` | backend/src/controllers/employeeController.js:24-43 | 404 "Employee not found" exactly when the employee is not the caller's; otherwise 200 with the row and exactly its teams |
| `EmployeeController.CreateEmployee` | backend/src/controllers/employeeController.js:45-76 | a falsy first or last name gives 400 with nothing stored; otherwise one employee in the caller's organisation that a lookup then finds, one `employee_created` log row and 201 |
| `EmployeeController.UpdatedEmployee` | backend/src/controllers/employeeController.js:89-96 | falsy names keep the stored names; an email or phone that is present replaces the stored one (`""` stores "", `null` clears); an absent one keeps it |
| `EmployeeController.EmptyUpdateKeepsEmployee` | backend/src/controllers/employeeController.js:89-96 | a body with no field writes the row back unchanged |
| `EmployeeController.UpdatedEmployeeIdempotent` | backend/src/controllers/employeeController.js:89-96 | applying the same update twice writes what applying it once does |
| `EmployeeController.UpdateEmployeesReadBack` | backend/src/models/index.js:48-61 | after the update the (id, organisation) lookup finds exactly the row written |
| `EmployeeController.UpdateEmployee` | backend/src/controllers/employeeController.js:78-112 | 404 with nothing changed for another organisation's id; otherwise the row becomes `UpdatedEmployee` and one `employee_updated` log row is written, even when nothing changed |
| `EmployeeController.DeleteEmployee` | backend/src/controllers/employeeController.js:114-144 | 404 with nothing changed for another organisation's id; otherwise the employee and its join rows go, no team lists it any more, and one `employee_deleted` log row keeps the old names |
| `AuthController.Authenticated` | backend/src/controllers/authController.js:69-78 | a login gets in only as the user with that email whose hash matches the password, and never with an unknown email |
| `AuthController.RegisteredUserCanLogIn` | backend/src/controllers/authController.js:24-27 | with emails unique and a sound hash, a user gets in with the password their stored hash was made from |
| `AuthController.Register` | backend/src/controllers/authController.js:5-57 | 400 with nothing created when a field is missing or the email is taken anywhere; otherwise one organisation, one user named `adminName` or "Admin", one `organisation_created` log row, and 201 with a token for the user's id, organisation and email |
| `AuthController.Login` | backend/src/controllers/authController.js:59-111 | 400 when a field is missing; the same 401 "Invalid credentials" for an unknown email and a wrong password, without a log row; otherwise one `user_login` log row and 200 with a token for the user |
| `AuthController.Logout` | backend/src/controllers/authController.js:113-127 | appends exactly one `user_logout` log row and answers 200 |
| `AuthMiddleware.Split` | backend/src/middlewares/authMiddleware.js:11 | `split(' ')`: at least one piece, and no piece contains the separator |
| `AuthMiddleware.JoinSplit` | backend/src/middlewares/authMiddleware.js:11 | splitting loses nothing: joining the pieces with the separator gives the header back |
| `AuthMiddleware.SplitWithoutSeparator` | backend/src/middlewares/authMiddleware.js:11 | a string without the separator splits into itself alone |
| `AuthMiddleware.SplitAfterPiece` | backend/src/middlewares/authMiddleware.js:11 | a separator-free prefix followed by the separator comes off as the first piece |
| `AuthMiddleware.BearerSplit` | backend/src/middlewares/authMiddleware.js:7-11 | `"Bearer " + t` splits into "Bearer" followed by the pieces of `t` |
| `AuthMiddleware.TokenOf` | backend/src/middlewares/authMiddleware.js:11 | `split(' ')[1]`: the second piece of the header, or empty when there is none; it never contains a space |
| `AuthMiddleware.TokenIsFirstWord` | backend/src/middlewares/authMiddleware.js:11 | the token is the text after `Bearer ` up to the next space |
| `AuthMiddleware.DoubleSpaceIsRejected` | backend/src/middlewares/authMiddleware.js:11-15 | a double space after `Bearer` yields an empty token and 401 "No token provided" |
| `AuthMiddleware.WordBeforeSpaceIsToken` | backend/src/middlewares/authMiddleware.js:11 | `"Bearer a b"` carries the token `"a"` |
| `AuthMiddleware.Authenticate` | backend/src/middlewares/authMiddleware.js:3-35 | passes the request on exactly when the header starts with `Bearer `, has a non-empty token and the token verifies, with `req.user` the payload's three claims; otherwise 401 "No token provided", "Invalid token" or "Token expired", or 500, each exactly in its case |
| `AuthMiddleware.MissingTokenIsRejected` | backend/src/middlewares/authMiddleware.js:5-15 | a missing header, one without the `Bearer ` prefix, or `Bearer ` alone is told "No token provided" |
| `AuthMiddleware.IssuedTokenAuthenticates` | backend/src/controllers/authController.js:90-94 | a token issued for an identity and sent back as `Bearer <token>` lets the request through as that identity |
| `EmployeePage.Lower` | frontend/src/pages/Employee.jsx:80 | lower-cases character by character and keeps the length |
| `EmployeePage.Includes` | frontend/src/pages/Employee.jsx:82-84 | `includes`: a prefix is included, and nothing longer than the text is |
| `EmployeePage.IncludesIsSubstring` | frontend/src/pages/Employee.jsx:81-84 | `includes` holds exactly when the query occurs at some position of the text |
| `EmployeePage.NameHit` | frontend/src/pages/Employee.jsx:80-83 | the lower-cased query occurs in the lower-cased first or last name |
| `EmployeePage.TextMatch` | frontend/src/pages/Employee.jsx:80-84 | the lower-cased query occurs in a lower-cased name, or in the lower-cased email when there is one |
| `EmployeePage.TeamMatch` | frontend/src/pages/Employee.jsx:86-98 | "No in a team now" asks for missing or empty teams; another non-empty choice asks for a team of exactly that name; an empty choice accepts everyone |
| `EmployeePage.FilterEmployees` | frontend/src/pages/Employee.jsx:79-102 | keeps exactly the employees whose name or email contains the query, ignoring case, and that pass the team test |
| `EmployeePage.FilterEmployeesKeepsOrder` | frontend/src/pages/Employee.jsx:79-102 | the filter keeps list order: filtering a concatenation concatenates the filtered parts |
| `EmployeePage.EmptySearchMatchesAll` | frontend/src/pages/Employee.jsx:80-84 | an empty search text matches every employee |
| `EmployeePage.EmptyQueryKeepsEveryone` | frontend/src/pages/Employee.jsx:79-102 | with both inputs empty the whole list is shown |
| `EmployeePage.NoTeamChoiceKeepsTeamless` | frontend/src/pages/Employee.jsx:90-91 | "No in a team now" keeps exactly the employees whose teams are missing or empty |
| `EmployeePage.EmployeePanels.constructor` | frontend/src/pages/Employee.jsx:18-20 | all three panels start closed |
| `EmployeePage.EmployeePanels.HandleToggle` | frontend/src/pages/Employee.jsx:52-67 | 'edit' and 'del' open their panel alone; 'add' flips the add panel and closes the others; any other value changes nothing; at most one panel is then open |
| `EmployeePage.EmployeePanels.OpenAdd` | frontend/src/pages/Employee.jsx:113 | the toolbar button opens the add panel and leaves the edit and delete panels as they were, so at most one panel is open afterwards exactly when neither of those was open before |
| `DashboardPage.LengthOrZero` | frontend/src/pages/Dashboard.jsx:66-69 | the list's length, or 0 when it is absent |
| `DashboardPage.TeamDistribution` | frontend/src/pages/Dashboard.jsx:79-84 | one bar per team in list order, with the team's name and its member count, or 0 when that is missing |
| `DashboardPage.EmployeesByTeam` | frontend/src/pages/Dashboard.jsx:86-93 | the assigned count is the number of employees with a non-empty team list, and the two slices add up to the list length |
| `DashboardPage.NoneUnassignedIffAllHaveTeams` | frontend/src/pages/Dashboard.jsx:86-93 | the unassigned slice is empty exactly when every employee has teams |
| `DashboardPage.DashboardStats` | frontend/src/pages/Dashboard.jsx:65-70 | the employee and team totals are the list lengths or 0; recent activities is the number of logs; total logs is `total` when truthy, else that number |
| `DashboardPage.RecentActivitiesAtMostFive` | frontend/src/pages/Dashboard.jsx:50 | the page asks for five logs, so its activity counter never exceeds five |
| `DashboardPage.TotalLogsIsRecentCount` | frontend/src/pages/Dashboard.jsx:68 | the log route sends no `total`, so the Total Logs card shows the number of recent rows fetched, the same as the activity counter and at most five |
| `TeamsPage.MergeEdit` | frontend/src/pages/Teams.jsx:54 | only the teams with the id take the form's name and description, even an empty name; everything else and the length are unchanged |
| `TeamsPage.RemoveTeam` | frontend/src/pages/Teams.jsx:68 | keeps exactly the teams with another id |
| `TeamsPage.RemoveTeamKeepsOrder` | frontend/src/pages/Teams.jsx:68 | removal keeps the other teams in their order |
| `TeamsPage.RemoveAbsentTeam` | frontend/src/pages/Teams.jsx:68 | removing an id that is not on the page leaves the list as it was |
| `TeamsPage.LocalEditMatchesServerUnlessNameEmpty` | frontend/src/pages/Teams.jsx:47-55 | after a saved edit the page and the server agree on the description, and on the name exactly when the form's name is non-empty or the stored name was already empty |
| `TeamsPage.Page.constructor` | frontend/src/pages/Teams.jsx:9-11 | no teams, no team being edited, an empty form |
| `TeamsPage.Page.StartEditing` | frontend/src/pages/Teams.jsx:32-35 | the team is being edited and the form holds its name and description |
| `TeamsPage.Page.CancelEditing` | frontend/src/pages/Teams.jsx:37-40 | no team is being edited and the form is empty |
| `TeamsPage.Page.HandleInputChange` | frontend/src/pages/Teams.jsx:42-45 | only the named field changes |
| `TeamsPage.Page.SaveEdit` | frontend/src/pages/Teams.jsx:47-60 | on 200 the list takes the form's values for that id and editing ends; on any other outcome nothing changes |
| `TeamsPage.Page.DeleteTeam` | frontend/src/pages/Teams.jsx:62-73 | on 200 the team leaves the list, the others keeping their order; on any other outcome nothing changes |

## Left out

- Password hashing and token signing (bcrypt, jsonwebtoken) are function values, not algorithms. This leaves out salting, the secret and the 7-day expiry; expiry appears only as the `TokenExpiredError` verdict.
- The SQLite driver, `backend/src/db.js` and the SQL text are not part of this model. Foreign keys are taken to be enforced, as the schema declares them. So an insert with a dangling reference fails, and that failure becomes a 500 reply. Deletes cascade to the join table.
- Table order is rowid order. A query with no ORDER BY is modelled as returning rows in that order.
- `Models.RecentLogs`: `CURRENT_TIMESTAMP` is a counter that moves forward with every log row. Rows written in the same second, which SQLite would order arbitrarily, are not modelled.
- `created_at` and `assigned_at` columns, and the JSON serialisation of log `meta`: a meta is a structured value.
- `TeamController.ListTeams`, `EmployeeController.ListEmployees`: the `Promise.all` fan-out is modelled as one sequential read.
- Express wiring (`backend/app.js`, the route files) and the error handler: any thrown error is the 500 reply the handlers state. The log controller, which only defaults the limit to 100 and passes it to `Log.findAll`, is not part of this model.
- `Models.Limit`: covers integer limits only. A `NaN` from `parseInt` is not modelled.
- Route parameters and body ids are integers. The string-to-number coercion of `req.params` is not modelled.
- Body fields other than ids are absent, `null` or a string. JSON numbers, booleans, arrays and objects are not modelled, nor is their own truthiness (`0` is falsy, `7` and `true` are truthy).
- `EmployeePage.Lower`: lower-cases ASCII letters only. Unicode case mapping is left out.
- `EmployeePage.FilterEmployees`: the page would crash on a null email when neither name matches. That crash path is a precondition (`EmailReadable`), not a behaviour.
- `TeamsPage.Page.HandleInputChange`: an input with another name adds that key to the form in the page. The model's form has only the two fields, so such input changes nothing.
- `AuthMiddleware.Split`: models `split` for a one-character separator, the only use in the gate.
- React rendering, navigation, axios and localStorage, the login, logs and component pages, date formatting and charts are not modelled. So are the crash paths in `AddEmployee.jsx`, `DelComponent.jsx` and `Logs.jsx`.
