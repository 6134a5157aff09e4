# Employee leave management: a Dafny model of the server's core

This project models the core of an employee leave and reimbursement
management system (a Node/Express server over MongoDB, with a React client):

- **Leave lifecycle.** Employees apply for leave; their manager approves or
  rejects it; an approved leave can be cancelled; a pending one can be
  deleted by its owner. Every status change appends one entry to the leave's
  approval history. Each handler runs an ordered series of guards, and the
  first one that fails decides the reply. Only when all guards pass does one
  leave change.
- **Account onboarding.** Self-registration as employee or manager. An
  administrator lists users and approves registrations. The first
  administrator is created by a bootstrap routine or a command-line seed
  script.
- **Reimbursement submission.** A guarded handler creates a pending claim
  with one receipt per uploaded file.
- **The client's route guard.** It decides whether a page renders or
  redirects.

The database is a value `Database.Db`: three maps from document id to
record, plus the next fresh id. Each handler is specified by a function
over that value (`...Spec`, returning the reply and the new database). A
method on the mutable `Database.Store` runs the handler step by step and is
proved to agree with its specification. Lemmas then state what the handler
promises. The schema rules (enumerations, defaults, required fields, the
setters that trim and lower-case, the validation hook, the pre-save hook)
live in the three model modules. `LeaveLifecycle` and `AccountLifecycle`
prove invariants over arbitrary sequences of requests.

Two schema mismatches in the source are modelled as written, with a switch
that selects the evidently intended schema. `LeaveModel.LeaveSchema` says
whether a leave's `approverId` is required. `UserModel.UserSchema` says
whether `userStatus` is a declared path. The handler contracts and the
lifecycle and soundness lemmas are proved for both settings; each
as-written lemma and each corrected lemma fixes one setting by design. The methods on the store use the schema as declared, except
`LeaveController.CreateLeave`, which takes the schema as a parameter: with
the declared schema its success path cannot be reached (see "## Findings").

## Model

| member | source | states |
|---|---|---|
| Common.FirstFailure | server/src/controllers/leave.controller.js:207-224 | The reply-deciding failure is None exactly when every guard passes |
| Common.FirstFailureIsFirst | server/src/controllers/leave.controller.js:207-224 | When guard i fails and all earlier ones pass, guard i's failure is the reply, whatever the later guards say |
| Common.OrNull | server/src/controllers/leave.controller.js:232 | The `note` fallback keeps a non-empty note and gives null for an absent or empty one |
| Common.TrimStartShape | server/src/models/user.model.js:11 | Dropping leading whitespace keeps a suffix, removes only whitespace, and leaves no whitespace at the front |
| Common.TrimEndShape | server/src/models/user.model.js:11 | Dropping trailing whitespace keeps a prefix, removes only whitespace, and leaves no whitespace at the back |
| Common.BlankTrimsAway | server/src/scripts/seedAdmin.js:13 | An all-whitespace string loses everything to the left trim |
| Common.TrimEmptyIffBlank | server/src/scripts/seedAdmin.js:13 | `s.trim()` is empty exactly when every character of s is whitespace |
| Common.TrimIdempotent | server/src/utils/createAdmin.js:17 | Trimming twice is trimming once, so the setter's second trim of the name changes nothing |
| Common.LowerChar | server/src/models/user.model.js:18 | Lower-casing a character neither creates nor removes whitespace |
| Common.ToLower | server/src/utils/createAdmin.js:9 | Lower-casing keeps the length and maps each character on its own |
| Common.LowerSliceIsLower | server/src/models/user.model.js:18 | Any piece of a lower-cased string is unchanged by lower-casing again |
| Common.NormalizeEmailIdempotent | server/src/utils/createAdmin.js:9 | Lower-casing and trimming an already normalised email changes nothing, so the schema's setters keep the value createAdmin computes |
| UserModel.ParseRole | server/src/models/user.model.js:28-32 | Only "employee", "manager" and "admin" are accepted, each as its own role |
| UserModel.RoleNamesRoundTrip | server/src/models/user.model.js:28-32 | Every role reads back as itself from its name |
| UserModel.UserDocument.constructor | server/src/models/user.model.js:6-43 | A new document has the trimmed name, the lower-cased and trimmed email, no manager, is active, and its password counts as modified |
| UserModel.UserDocument.Load | server/src/models/user.model.js:6-43 | A hydrated document holds the stored record and nothing is modified |
| UserModel.UserDocument.PreSave | server/src/models/user.model.js:63-69 | The password is replaced by its hash only when it was modified; no other field changes |
| LeaveModel.ParseLeaveType | server/src/models/leave.model.js:19-23 | Only "casual", "sick", "earned" and "unpaid" are accepted, each as its own type |
| LeaveModel.LeaveTypeNamesRoundTrip | server/src/models/leave.model.js:19-23 | Every leave type reads back as itself from its name |
| LeaveModel.StatusNamesDistinct | server/src/models/leave.model.js:45-49 | Distinct statuses have distinct names, so a status filter selects one status |
| LeaveModel.NewLeaveDefaults | server/src/models/leave.model.js:13-17 | A new leave is pending, has no approver, no rejection reason and an empty history, and keeps its requester |
| LeaveModel.ValidationOnDates | server/src/models/leave.model.js:93-98 | With a known type and an approver, validation passes exactly when the end is not before the start; equal dates pass |
| LeaveModel.Actions | server/src/models/leave.model.js:69-85 | The action list has one entry per history entry, in order |
| LeaveModel.ActionsAppend | server/src/models/leave.model.js:69-85 | Appending a history entry appends its action |
| ReimbursementModel.ParseCategory | server/src/models/reimbursement.model.js:19-23 | Only the five category names are accepted, each as its own category |
| ReimbursementModel.CategoryNamesRoundTrip | server/src/models/reimbursement.model.js:19-23 | Every category reads back as itself from its name |
| ReimbursementModel.NewReimbursementDefaults | server/src/models/reimbursement.model.js:13-17 | A new claim is pending, has no approver and an empty history, and keeps requester, amount and receipts |
| Database.UserInsert | server/src/models/user.model.js:14-20 | An insert fails exactly when the unique email index already holds the email, and then changes nothing; otherwise the user is stored under the fresh id |
| Database.Store.InsertUser | server/src/models/user.model.js:14-20 | Agrees with `UserInsert` on the reply and the new state |
| Database.Store.InsertLeave | server/src/controllers/leave.controller.js:191 | The leave is stored under the fresh id and nothing else changes |
| Database.Store.InsertReimbursement | server/src/controllers/reimbursement.controller.js:35 | The claim is stored under the fresh id and nothing else changes |
| LeaveController.TotalDays | server/src/controllers/leave.controller.js:180 | The day count is at least 1 and is one more than the nearest whole number of days between the dates, halves rounding up |
| LeaveController.TotalDaysWholeDays | server/src/controllers/leave.controller.js:180 | Dates k whole days apart give k + 1 days; equal dates give 1 |
| LeaveController.CreateLeaveRefusals | server/src/controllers/leave.controller.js:155-177 | Refusal order: no manager, then a missing field, then an unparseable date, then end before start; a refusal changes nothing |
| LeaveController.CreateLeaveAccepted | server/src/controllers/leave.controller.js:180-191 | A request passing the guards builds the whole new record: the caller's pending leave with the submitted type and dates, the trimmed reason, the day count `TotalDays` gives (at least one), no approver, no timestamps and an empty history; it is stored under the fresh id exactly when the schema validates it |
| LeaveController.CreateLeaveNeverStores | server/src/controllers/leave.controller.js:182-191 | With the schema as declared, every request is refused and nothing is stored |
| LeaveController.CreateLeaveStoresWhenApproverOptional | server/src/controllers/leave.controller.js:182-191 | With an optional approver, a well-formed request of a known type is stored as the caller's pending leave under the fresh id |
| LeaveController.CreateLeave | server/src/controllers/leave.controller.js:150-200 | Agrees with `CreateLeaveSpec` on the reply and the new state |
| LeaveController.Save | server/src/controllers/leave.controller.js:235 | A changed leave is written back exactly when it validates; otherwise nothing changes |
| LeaveController.ApproveLeaveContract | server/src/controllers/leave.controller.js:207-233 | 404, then 403 unless the requester reports to the caller, then 400 unless pending; when every guard passes the reply is 500 exactly when the schema refuses the approved leave, and otherwise success; on success only that leave changes, and the new record is the old one approved by the caller at `now` with exactly one "approved" entry appended |
| LeaveController.ApproveLeave | server/src/controllers/leave.controller.js:202-244 | Agrees with `ApproveLeaveSpec` on the reply and the new state |
| LeaveController.RejectLeaveContract | server/src/controllers/leave.controller.js:251-281 | A missing reason is refused before any lookup, then the approval guards in order; when every guard passes the reply is 500 exactly when the schema refuses the rejected leave, and otherwise success; on success only that leave changes, and the new record is the old one rejected by the caller at `now` with the trimmed reason and one "rejected" entry |
| LeaveController.RejectLeave | server/src/controllers/leave.controller.js:246-293 | Agrees with `RejectLeaveSpec` on the reply and the new state |
| LeaveController.CancelLeaveContract | server/src/controllers/leave.controller.js:94-113 | 404, then anything but an approved leave is refused and unchanged; when both guards pass the reply is 500 exactly when the schema refuses the cancelled leave, and otherwise success; on success only that leave changes, and the new record is the old one cancelled at `now` with one "cancelled" entry |
| LeaveController.CancelLeave | server/src/controllers/leave.controller.js:89-119 | Agrees with `CancelLeaveSpec` on the reply and the new state |
| LeaveController.DeleteLeaveContract | server/src/controllers/leave.controller.js:125-142 | 404, then 403 unless the caller is the requester, then 400 unless pending; the caller's own pending leave is always deleted, and then exactly that leave is removed and every other stays |
| LeaveController.DeleteLeave | server/src/controllers/leave.controller.js:121-148 | Agrees with `DeleteLeaveSpec` on the reply and the new state |
| LeaveController.TeamLeavesExact | server/src/controllers/leave.controller.js:40-44 | The team listing holds exactly the stored leaves whose requester reports to the caller, narrowed to one status when given |
| LeaveController.TeamLeavesUnknownStatus | server/src/controllers/leave.controller.js:40-44 | A non-empty status filter that names no leave status gives an empty team listing |
| LeaveController.MyLeavesAreOwn | server/src/controllers/leave.controller.js:4-33 | The caller's listing holds only the caller's leaves, each also in the full listing; without a status filter it holds all of them |
| LeaveController.UserLeavesWithinTeam | server/src/controllers/leave.controller.js:62-83 | 404 for an unknown user, 403 for one not reporting to the caller, and success exactly for a direct report; the reply's user is that user's stored id, name, email and role, and the leaves returned are exactly that user's part of the team listing |
| LeaveLifecycle.CreateEvolves | server/src/controllers/leave.controller.js:182-191 | Creation touches only the fresh id and adds a pending leave with an empty history |
| LeaveLifecycle.ApproveEvolves | server/src/controllers/leave.controller.js:226-235 | Approval touches only the named leave, by one step with one history entry |
| LeaveLifecycle.RejectEvolves | server/src/controllers/leave.controller.js:274-284 | Rejection touches only the named leave, by one step with one history entry |
| LeaveLifecycle.CancelEvolves | server/src/controllers/leave.controller.js:105-113 | Cancellation touches only the named leave, by one step with one history entry |
| LeaveLifecycle.DeleteEvolves | server/src/controllers/leave.controller.js:136-142 | Deletion removes only the named leave, and only a pending one |
| LeaveLifecycle.HandleEvolves | server/src/controllers/leave.controller.js:89-293 | Any one request leaves users alone, changes at most its target leave by one step (pending to approved or rejected, approved to cancelled) with one history entry naming the step, removes only pending leaves, and creates only pending ones |
| LeaveLifecycle.RunOnlyMovesForward | server/src/controllers/leave.controller.js:89-293 | Over any sequence of requests a surviving leave's status only moves forward along those steps |
| LeaveLifecycle.RunKeepsIdsIssued | server/src/controllers/leave.controller.js:182-191 | Over any sequence of requests every stored id stays below the next fresh id |
| LeaveLifecycle.RunNeverRevives | server/src/controllers/leave.controller.js:142 | A removed leave's id never reappears |
| LeaveLifecycle.TerminalIsFinal | server/src/controllers/leave.controller.js:89-293 | A rejected or cancelled leave is never changed or removed again, whatever follows |
| LeaveLifecycle.EvolvesKeepsHistory | server/src/models/leave.model.js:69-85 | One step keeps a leave's history in line with its status |
| LeaveLifecycle.RunKeepsHistoriesMatching | server/src/models/leave.model.js:69-85 | Over any sequence of requests each leave's history is exactly the record of the moves that brought it to its status |
| AuthController.RegisterRefusals | server/src/controllers/auth.controller.js:7-20 | A missing name, email or password is 400, then a role other than employee or manager is 400 (nobody registers as admin), then an email whose normalised form is in use is 409; a refusal changes nothing |
| AuthController.RegisterCreates | server/src/controllers/auth.controller.js:22-39 | A request passing the guards is answered 500 exactly when the validators refuse the built account (the unique index cannot fire, since the guard looked up the normalised email); success adds exactly one user under the fresh id: employee unless manager was asked for, never admin, no manager, the normalised email (non-empty, as is the trimmed name), the hashed password; the reply echoes it without a password |
| AuthController.RegisterDropsStatus | server/src/controllers/auth.controller.js:27 | As declared, the stored user has no userStatus and the reply's userStatus is undefined |
| AuthController.Register | server/src/controllers/auth.controller.js:3-44 | Agrees with `RegisterSpec` on the reply and the new state |
| AdminController.GetUsers | server/src/controllers/admin.controller.js:5 | The listing holds every non-admin user and no admin, each as stored but without a password |
| AdminController.ApproveUserContract | server/src/controllers/admin.controller.js:16-40 | 404, then 400 for an admin, then 400 if read as approved; past the guards, 500 exactly when the save's validation finds the stored name or email empty, and success otherwise; a refusal changes nothing; on success no user is added or removed, only that user's userStatus may change (stored as approved when the path is declared, unchanged as declared), and the reply echoes the stored id, name, email and role with userStatus approved |
| AdminController.ApproveUserRepeatsAsWritten | server/src/controllers/admin.controller.js:25-30 | As declared, approving stores nothing, so a second approval gives the same reply as the first; both succeed exactly when the stored name and email validate |
| AdminController.ApproveUserOnceWithStatus | server/src/controllers/admin.controller.js:25-30 | With userStatus declared, approving a user whose stored name and email validate is stored, and a second approval is refused as already approved, changing nothing |
| AdminController.ApproveUser | server/src/controllers/admin.controller.js:12-45 | Agrees with `ApproveUserSpec` on the reply and the new state |
| AdminCreation.CreateAdminContract | server/src/utils/createAdmin.js:9-23 | With an admin present: created false, admin null, nothing stored; otherwise exactly one admin with the trimmed name, the normalised email and the hashed password, unless validation fails or the email is taken |
| AdminCreation.CreateAdminTwice | server/src/utils/createAdmin.js:11-14 | After a successful call an admin exists, so a second call reports created false and changes nothing |
| AdminCreation.CreateAdmin | server/src/utils/createAdmin.js:8-24 | Agrees with `CreateAdminSpec` on the reply and the new state |
| AdminSeed.ParseArgsPositions | server/src/scripts/seedAdmin.js:5-8 | Name, email and password come from argv positions 2, 3 and 4; extra arguments are ignored; absent positions are undefined |
| AdminSeed.NameValidIffNotBlank | server/src/scripts/seedAdmin.js:13-15 | A name is accepted exactly when it is present and not all whitespace |
| AdminSeed.IndexOf | server/src/scripts/seedAdmin.js:17 | The first occurrence of a character, with none before it |
| AdminSeed.ScanFindsPattern | server/src/scripts/seedAdmin.js:17 | An email the scan accepts matches the regular expression |
| AdminSeed.PatternPassesScan | server/src/scripts/seedAdmin.js:17 | An email the regular expression matches passes the scan |
| AdminSeed.FirstAtIsAfterPlainRun | server/src/scripts/seedAdmin.js:17 | An '@' that follows a run without '@' is the first one in the string |
| AdminSeed.PlainAroundDot | server/src/scripts/seedAdmin.js:17 | Two runs without whitespace or '@' joined by a dot form one such run |
| AdminSeed.EmailValidIffPattern | server/src/scripts/seedAdmin.js:17-19 | The email is accepted exactly when it matches: no whitespace, one '@' with something before it, and a dot in the domain with characters on both sides |
| AdminSeed.ValidateArgs | server/src/scripts/seedAdmin.js:10-26 | Exactly the failing checks' messages, each once, in the order name, email, password; empty exactly when all three pass |
| AdminSeed.SeedAdmin | server/src/scripts/seedAdmin.js:28-55 | Any validation error exits with 1 without connecting or touching the store; otherwise the store changes as createAdmin says and the exit code is 0 exactly when an admin was created |
| ReimbursementController.ReceiptsOf | server/src/controllers/reimbursement.controller.js:25 | One receipt per uploaded file, in upload order, with the file's path as url |
| ReimbursementController.CreateReimbursementRefusals | server/src/controllers/reimbursement.controller.js:8-22 | No manager, then a missing category or amount, then an amount that does not parse to a positive number; a refusal changes nothing |
| ReimbursementController.CreateReimbursementAccepted | server/src/controllers/reimbursement.controller.js:25-35 | A request passing the guards is stored exactly when its category is known and every file has a path: the caller's pending claim with the parsed (positive) amount, the trimmed description, no approver, no timestamps and one receipt per file |
| ReimbursementController.CreateReimbursement | server/src/controllers/reimbursement.controller.js:3-44 | Agrees with `CreateReimbursementSpec` on the reply and the new state |
| AccountLifecycle.AddUserKeepsSound | server/src/models/user.model.js:14-20 | Adding a user with a fresh, normalised email under the fresh id, and no second admin, keeps the store sound |
| AccountLifecycle.RegisterKeepsSound | server/src/controllers/auth.controller.js:3-44 | Registration keeps at most one admin, unique and normalised emails, non-empty stored names and emails, and issued ids |
| AccountLifecycle.ApproveUserKeepsSound | server/src/controllers/admin.controller.js:12-45 | Approval keeps the store sound |
| AccountLifecycle.ApproveUserSavesOnSound | server/src/controllers/admin.controller.js:29-30 | On a sound store, where every stored user has a name and an email, the save never fails: approveUser succeeds exactly for an existing non-admin user not read as approved |
| AccountLifecycle.CreateAdminKeepsSound | server/src/utils/createAdmin.js:8-24 | Admin creation keeps the store sound; it adds an admin only when there is none |
| AccountLifecycle.HandleKeepsSound | server/src/controllers/auth.controller.js:22-28 | Any one account request keeps the store sound |
| AccountLifecycle.RunKeepsSound | server/src/utils/createAdmin.js:11-23 | From a sound store, any sequence of account requests leaves at most one admin, unique and normalised emails, and every stored user with a non-empty name and email |
| AccountLifecycle.EmptyIsSound | server/src/models/user.model.js:6-60 | The empty store is sound |
| ProtectedRoute.Decide | client/src/components/utils/ProtectedRoute.jsx:14-25 | Nothing while initializing; the login page without a user, whatever the requirement; home for a user the requirement does not admit; the page exactly when a signed-in user is admitted |
| ProtectedRoute.AllowedMeaning | client/src/components/utils/ProtectedRoute.jsx:21 | No requirement admits everybody; a string admits that role alone; an array admits exactly its entries, so an empty array admits nobody |
| ProtectedRoute.SingletonArrayIsString | client/src/components/utils/ProtectedRoute.jsx:21 | A one-entry array and its string admit the same roles |
| ProtectedRoute.WiderArrayAdmitsMore | client/src/components/utils/ProtectedRoute.jsx:21 | Adding entries to an array requirement only admits more users |

## Left out

- The reporting-line assignment, role change, user deletion and team listing handlers are routed but their implementation is not part of this model, so no property about who may manage whom is stated.
- The reimbursement approve, reject, pay, delete and listing handlers, and login, logout and the current-user endpoint, are not part of this model for the same reason.
- The authorisation middleware that checks a caller's role on each route is not part of this model. In particular, "cancel is by an admin" is a route-level rule; `LeaveController.CancelLeave` accepts any caller it is given.
- JSON web tokens, password comparison, Express wiring and the database connection are I/O. The password hash is an uninterpreted function parameter `hash`. Cloudinary and multer uploads are reduced to the list of uploaded file paths.
- The clock is the parameter `now`. One `now` serves both the status timestamp and the history entry's `actionAt`, which the source takes from two readings of the clock. The `createdAt` and `updatedAt` timestamps are not modelled.
- Date-string parsing (`new Date`, `isNaN`) and `parseFloat` are inputs already parsed: `LeaveController.DateInput` and `ReimbursementController.AmountInput`. An infinite parsed amount has no counterpart in `real`.
- LeaveController.TotalDays: the source divides JavaScript doubles; the model uses exact integers, which agree with the double computation for spans below 2^53 milliseconds (about 104.25 million days).
- Document ids are natural numbers. An id that is not a valid ObjectId makes the source's lookup throw (a 500), which the model does not represent.
- `populate` and `sort({ createdAt: -1 })` are not modelled: listings are maps from id to record, without order or populated requester.
- Lengths are counted in characters, whereas JavaScript counts UTF-16 code units, so a password with characters outside the Basic Multilingual Plane is measured differently. `toLowerCase` is modelled on the ASCII letters only.
- Reply message texts and the `error` field of a 500 are not modelled; each refusal is a constructor with its HTTP status.
- Concurrency: each handler is a non-atomic read-check-write; the model handles one request at a time. The duplicate-email check is modelled both as the handler's lookup and as the unique index.
- AdminSeed.SeedAdmin: the `{ force: true }` option the script passes to `createAdmin` is not modelled, because `createAdmin` ignores its second argument.
- AdminSeed.SeedAdmin: a creation that throws is an unhandled rejection, modelled as exit code 1; the console output is not modelled.
- AdminController.ApproveUser: the document is fetched without its password, and the model loads the full record. The save still validates the loaded name and email, and a failure is answered 500 (`UserModel.ValidatesLoaded`); the unselected password is not validated, and since no path is modified the record is written back unchanged. Users stored by register and createAdmin always pass that validation (`AccountLifecycle.ApproveUserSavesOnSound`).

## Findings

| source | as written | input that shows it | evidently intended | confidence | as-written member | corrected member |
|---|---|---|---|---|---|---|
| server/src/models/leave.model.js:13-17 | `approverId` is required, but `createLeave` never sets it, so every new leave fails validation and the handler answers 500 | any request from a user with a manager, leaveType "casual", startDate and endDate the same valid date | a new leave is stored pending with no approver until a manager acts | not executed | LeaveController.CreateLeaveNeverStores | LeaveController.CreateLeaveStoresWhenApproverOptional |
| server/src/models/user.model.js:6-58 | `userStatus` is not a declared path, so the value `approveUser` assigns is dropped on save and its "already approved" guard never fires | approve the same pending employee twice: both calls answer 200 | approval is stored and a second approval answers 400 | not executed | AdminController.ApproveUserRepeatsAsWritten | AdminController.ApproveUserOnceWithStatus |
| server/src/controllers/auth.controller.js:27 | `userStatus: "pending"` is dropped on create, so the new user has no status and the reply shows none | register any new employee | the new user is stored pending | not executed | AuthController.RegisterDropsStatus | AuthController.RegisterCreates |
