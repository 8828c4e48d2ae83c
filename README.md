# auth-system: registration, inventory permissions and audit trail in Dafny

This project models the user-management core of a Symfony web application:

- the **inventory voter**, which decides the four inventory attributes (view, edit, delete, create) by testing one literal role each. It abstains on unknown attributes and on foreign subjects, and denies when the token's user is not an application `User`;
- the **registration request** (`RegisterUserDTO`): a raw key/value map is turned into five fields with defaults and checked against its declared constraints;
- the **registration service**, with a validation gate, an exact-email uniqueness gate, and the insert of one account with a single role and a hashed password;
- the **audit log writer**, which appends one entry per call, and the **audit log queries** by action, by user and by recency, each ordered newest first;
- the **controllers'** decisions: the inventory endpoints' guards, the admin user list and its statistics, user deletion with its admin, self-deletion and CSRF gates, JSON and web registration with their audit events and flashes, login and the current-user endpoint.

Stateful parts are classes. `Users.UserTable` holds the user table (`users: map<nat, User>`, `nextId`). `AuditLoggerService.AuditLogger` holds the log (`entries: seq<AuditLogEntry>`). `Http.Session` holds the flash bag. The decision rules, the validator and the queries are functions. Each stateful method's `ensures` ties the new state to a specification function (`UserRegistrationService.Outcome`/`UsersAfter`, `UserController.DeleteBranch`), and the lemmas state the source's promises about those functions.

External collaborators become inputs:
- the ambient security context is `Http.Principal` (the logged-in user and the set of roles `isGranted` confirms);
- the password hasher is a function `string -> string`;
- the email grammar is `isEmail: string -> bool` in `RegisterUserDto.ValidatorConfig`;
- the clock is a `now: nat` parameter;
- the CSRF check is a boolean.

## Model

| member | source | states |
|---|---|---|
| InventoryVoter.Decide | src/Security/InventoryVoter.php:25-58 | the vote is ABSTAIN exactly when the attribute is not one of the four or the subject is neither null nor an item; it is GRANT exactly when, in addition, the token user is a `User` and the attribute's one required literal role is held |
| InventoryVoter.UnknownAttributeAbstains | src/Security/InventoryVoter.php:27-29 | an attribute outside the four gets ABSTAIN whatever the subject, user and roles |
| InventoryVoter.ForeignSubjectAbstains | src/Security/InventoryVoter.php:31-35 | a subject that is neither null nor an inventory item gets ABSTAIN |
| InventoryVoter.NonAppUserDenied | src/Security/InventoryVoter.php:40-44 | on a supported pair, a token whose user is not a `User` (anonymous or foreign) gets DENY, never GRANT or ABSTAIN |
| InventoryVoter.DecisionTable | src/Security/InventoryVoter.php:46-82 | VIEW is granted iff ROLE_USER is held, EDIT and CREATE iff ROLE_INVENTORY_MANAGER, DELETE iff ROLE_ADMIN |
| InventoryVoter.SubjectIrrelevant | src/Security/InventoryVoter.php:46-57 | on supported inputs the vote does not depend on the subject, so EDIT ignores which item is passed |
| InventoryVoter.AdminAloneOnlyDeletes | src/Security/InventoryVoter.php:60-82 | there is no role hierarchy: holding only ROLE_ADMIN grants DELETE and denies VIEW, EDIT and CREATE |
| InventoryVoter.AccessFollowsVoter | src/Controller/InventoryController.php:17 | under the affirmative strategy, with every other voter abstaining, access is granted iff this voter grants |
| RegisterUserDto.FromData | src/DTO/RegisterUserDTO.php:38-45 | for each of the five keys, a missing or null key gives "" (ROLE_USER for the role) and a present string is copied verbatim |
| RegisterUserDto.ValidateExact | src/DTO/RegisterUserDTO.php:12-34 | the reported violations are exactly the broken constraints, each once, in declaration order (property by property, constraint by constraint) |
| RegisterUserDto.ValidIffNoViolation | src/DTO/RegisterUserDTO.php:12-34 | the request is valid iff no constraint is broken |
| RegisterUserDto.BlankFieldsReported | src/DTO/RegisterUserDTO.php:12-27 | a blank email, password, first name or last name each yields its own "obligatorio"/"obligatoria" violation |
| RegisterUserDto.PasswordLengthRule | src/DTO/RegisterUserDTO.php:17-20 | a non-empty password is rejected for length iff it has fewer than 6 characters |
| RegisterUserDto.NameLengthRule | src/DTO/RegisterUserDTO.php:24-28 | a non-empty first or last name is rejected for length iff its length is outside 2..100 |
| RegisterUserDto.EmailFormatRule | src/DTO/RegisterUserDTO.php:13 | a non-empty email is rejected for format iff the email grammar refuses it |
| RegisterUserDto.RoleChoiceRule | src/DTO/RegisterUserDTO.php:31-34 | the role is rejected iff it is not ROLE_USER, ROLE_INVENTORY_MANAGER, ROLE_MANAGER or ROLE_ADMIN |
| RegisterUserDto.ThreeViolationsExample | src/DTO/RegisterUserDTO.php:12-28 | a malformed email, the password "123" and an empty first name give exactly the format, password-length and first-name-required violations, in that order, when Length leaves "" to NotBlank |
| Users.UserTable.FindOneByEmail | src/Service/UserRegistrationService.php:36-37 | finds a row iff some row has exactly this email, and the row found is in the table and has that email |
| Users.UserTable.Persist | src/Service/UserRegistrationService.php:57-58 | the new row is stored under the next id, the counter advances, no other row changes, and the table stays well formed |
| Users.UserTable.Remove | src/Controller/UserController.php:48-49 | exactly the given row is removed and the table stays well formed |
| UserRegistrationService.CollectMessages | src/Service/UserRegistrationService.php:26-28 | the error list has one message per violation, in the violations' order |
| UserRegistrationService.RegistrationService.Register | src/Service/UserRegistrationService.php:19-71 | the reply is `Outcome` of the old table, the table becomes `UsersAfter`, the id counter advances only on success, and the table stays well formed |
| UserRegistrationService.InvalidRejected | src/Service/UserRegistrationService.php:22-34 | a request with violations is rejected with exactly their messages, in order, and the table is unchanged |
| UserRegistrationService.ValidationBeforeLookup | src/Service/UserRegistrationService.php:22-37 | an invalid request gets the same reply whatever the table holds, so validation comes before the email lookup |
| UserRegistrationService.DuplicateRejected | src/Service/UserRegistrationService.php:36-44 | a valid request for a taken email is rejected with exactly ["El usuario con este email ya existe"] and the table is unchanged |
| UserRegistrationService.AcceptedStoresOneUser | src/Service/UserRegistrationService.php:46-70 | a valid request for a free email adds exactly one row under a fresh positive id, with the request's email and names, roles [role] and the hash of the password; other rows are unchanged and the reply projects the new row |
| UserRegistrationService.RegisteredIff | src/Service/UserRegistrationService.php:22-58 | registration succeeds iff no constraint is broken and the email is free |
| UserRegistrationService.RegisterKeepsWellFormed | src/Service/UserRegistrationService.php:36-58 | registering keeps ids consistent and emails unique |
| UserRegistrationService.RegisterTwiceIsDuplicate | src/Service/UserRegistrationService.php:36-58 | after a successful registration the same request is rejected as a duplicate |
| AuditLoggerService.AuditLogger.Log | src/Service/AuditLoggerService.php:18-34 | appends exactly one entry, with the given action, user, resource and IP address, details or an empty map for null, and the clock value; earlier entries are unchanged |
| AuditLoggerService.AuditLogger.LogUserAction | src/Service/AuditLoggerService.php:45-48 | appends one entry for the given user, resource and details, with no IP address |
| AuditLoggerService.AuditLogger.LogSecurityEvent | src/Service/AuditLoggerService.php:50-53 | appends one entry whose resource is "security", with no IP address |
| AuditLogRepository.OrderByTimestampDesc | src/Repository/AuditLogRepository.php:25 | the result is a permutation of the input, ordered by timestamp, non-increasing |
| AuditLogRepository.Where | src/Repository/AuditLogRepository.php:22-23 | each entry occurs in the result as often as in the log if it satisfies the condition, otherwise not at all |
| AuditLogRepository.FindByAction | src/Repository/AuditLogRepository.php:20-28 | exactly the log's entries with that action, each as often as in the log, newest first |
| AuditLogRepository.FindByUser | src/Repository/AuditLogRepository.php:31-39 | exactly the log's entries attributed to that user id, each as often as in the log, newest first |
| AuditLogRepository.NonPositiveUserHasNoLogs | src/Repository/AuditLogRepository.php:31-39 | when every recorded user id is positive, a query for an id of zero or below returns no entries |
| AuditLogRepository.FindRecentLogs | src/Repository/AuditLogRepository.php:42-49 | min(limit, size of log) entries, newest first, a sub-multiset of the log, and no omitted entry is newer than a returned one; the default limit of 10 is the caller's argument `FindRecentLogs(log, 10)` |
| UserController.Index | src/Controller/UserController.php:16-35 | only an admin gets the page, listing every user; total_users is the number of users, oauth_users and regular_users are the counts of users with `isOAuth` true and false, and admin_users is the ROLE_ADMIN tally; the two OAuth counts sum to the total and the tally does not exceed it |
| UserController.CountAdminsAppend | src/Controller/UserController.php:26-28 | the admin tally is additive over the list, so it counts each user with ROLE_ADMIN exactly once |
| UserController.CountAdminsBound | src/Controller/UserController.php:26-28 | the admin tally is at most the number of users, and equal iff every user holds ROLE_ADMIN |
| UserController.OAuthPartition | src/Controller/UserController.php:24-25 | every user is counted as OAuth or as regular, never both |
| UserController.CountAdminsIsSetSize | src/Controller/UserController.php:26-28 | the admin tally equals the number of positions whose user holds ROLE_ADMIN |
| UserController.CountOAuthIsSetSize | src/Controller/UserController.php:24-25 | each OAuth count equals the number of positions whose user has that `isOAuth` flag |
| UserController.Delete | src/Controller/UserController.php:38-57 | the row is removed only on the Removed branch, with one flash per branch; non-admins are refused and every admin branch redirects to app_users |
| UserController.RemovalConditions | src/Controller/UserController.php:40-54 | the target is removed iff it exists, the actor is admin, the actor is not the target, and the CSRF token is valid |
| UserController.SelfDeleteKeepsUser | src/Controller/UserController.php:42-45 | an admin deleting their own account takes the self-deletion branch, which removes nothing and adds one error flash |
| InventoryController.Handle | src/Controller/InventoryController.php:15-45 | an endpoint answers iff the voter grants its check; create answers 201, the others 200 |
| InventoryController.GuardsSupported | src/Controller/InventoryController.php:15-45 | every endpoint's check is supported by the voter, and only edit passes an item subject |
| InventoryController.EndpointAccess | src/Controller/InventoryController.php:15-45 | list needs ROLE_USER, create and edit need ROLE_INVENTORY_MANAGER, delete needs ROLE_ADMIN, and nobody logged in is refused everywhere |
| InventoryController.EditIgnoresId | src/Controller/InventoryController.php:31-37 | edit is decided the same way for every id, since it checks a new unsaved item |
| AuthController.AuthController.Register | src/Controller/AuthController.php:27-66 | invalid JSON gives 400 with no registration and no audit entry; otherwise exactly one REGISTRATION_FAILED event with the errors (400) or one USER_REGISTERED event with the email and role or ROLE_USER (201); the table's id counter advances only on 201 |
| AuthController.RegisteredHasEmail | src/Controller/AuthController.php:56-60 | a successful registration had a non-null `email` key, so the success event's email lookup is defined |
| AuthController.WebRole | src/Controller/AuthController.php:82-89 | an admin whose form has a roles field and a truthy selection gets that selection; every other case gets ROLE_USER; the role is never "" or "0" |
| AuthController.AuthController.RegisterWeb | src/Controller/AuthController.php:68-130 | an unsubmitted or invalid form changes nothing; success adds one flash and redirects admins to app_users and others to app_login; failure adds one error flash per message, in order; the id counter advances only on the success redirect |
| AuthController.AuthController.GetCurrentUser | src/Controller/AuthController.php:133-152 | no user is an authentication failure with no audit entry; otherwise one PROFILE_VIEWED entry for that user and their profile |
| AuthController.AuthController.Login | src/Controller/AuthController.php:165-183 | no user is an authentication failure with no audit entry; otherwise one LOGIN_SUCCESS security event for that user |
| RegistrationController.SelectedRole | src/Controller/RegistrationController.php:40-43 | a non-admin, or a form without a roles field, gives ROLE_USER; otherwise the selection, or ROLE_USER if it is null |
| RegistrationController.SuccessRoute | src/Controller/RegistrationController.php:56-63 | success leads to app_users iff the actor is admin, and to app_login otherwise |
| RegistrationController.NonAdminRegistersAsUser | src/Controller/RegistrationController.php:40 | whatever a non-admin selects, they register as ROLE_USER |
| RegistrationController.EmptySelectionIsInvalidRole | src/Controller/RegistrationController.php:41-43 | an admin's empty selection is passed on as the role "", which the choice constraint rejects |
| RegistrationController.Register | src/Controller/RegistrationController.php:17-74 | a logged-in non-admin is redirected to app_home with nothing changed; a submitted valid form is registered with the selected role; success adds one flash and redirects; failure adds one error flash per message, in order; the id counter advances only on the success redirect |
| Http.Session.AddErrorFlashes | src/Controller/RegistrationController.php:64-67 | appends exactly one error flash per message, in order, after the existing flashes |

## Left out

- JSON decoding is an input: a body is invalid JSON or a key/value map whose values are strings or null. A body that decodes to a scalar or `null` fails in the DTO constructor and is not modelled; a JSON list is read like a map with none of the five keys. JSON values that are neither strings nor null are not modelled.
- The validator library is not modelled. The email grammar is an uninterpreted predicate. NotBlank treats only "" as blank. Whether Email and Length also judge "" is a configuration flag, so the number of errors for an empty field is not fixed. Length's charset check is left out. The two name Length messages are the library's English defaults.
- The role hierarchy, `isGranted` and `User::getRoles` are not modelled. "Held roles" is the set of roles the security context grants. Registration replies and the admin tally use the stored roles; `getRoles` may add ROLE_USER, and that is not modelled.
- Password hashing is an opaque function of the plain text. The hasher's user argument is dropped.
- Doctrine persistence is replaced by an in-memory table with a counter for ids. `Persist` requires a free email, standing for the unique index on email. The check-then-insert race between the lookup and the insert is concurrency and is left out. The code has no recovery from a late duplicate-key failure, so the model has none. Email equality is exact; a case-insensitive database collation is not modelled.
- The clock is a `now` parameter. One request uses the same value for the account's update stamp and for its audit entry.
- The audit writer's file logger (src/Service/AuditLoggerService.php:37-42) is output only and is left out. Storage failures are not modelled. Audit-write failures are not caught; a storage failure would propagate to the caller.
- Entity details not shown in the source are left out: audit entry ids, account creation stamps. New accounts get `isOAuth = false`; the entity's own default is not part of this model.
- Symfony's `Voter::vote` loop over several attributes is library code. The model votes on the single attribute each controller passes.
- Access refusals are one outcome. The framework answers 403 to a logged-in user and redirects an anonymous one to the login page; that distinction is left out.
- The argument resolver that loads the route's user is not modelled; its outcome, "not found" for an unknown id, is the first branch of `UserController.DeleteBranch`.
- Rendering, templates, response bodies beyond their outcome tags, JWT creation in `login`, and the `health` endpoint (only a clock read) are left out.
- CSRF token validation is a boolean input.
- AuditLogRepository.FindRecentLogs: the limit is a natural number; a negative limit is not modelled. Entries with equal timestamps come back in one fixed order, which is one of the orders the database may use.
- src/Command/TestAuthCommand.php, src/Controller/SecurityController.php and src/Controller/HomeController.php are not part of this model.
