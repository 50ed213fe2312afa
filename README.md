# EduGestion API request handlers in Dafny

EduGestion is a multi-tenant tutoring back end. Academies and individual
advisors (tenants) build teaching plans (enrollments) for a client's student.
They schedule classes against each plan subject's purchased quota, take
payments, chat with clients and receive reviews and progress reports. Every
HTTP handler follows the same pattern: validate the body, resolve who the
caller is, check the state of a row, then write.

This project models those handlers over an in-memory relational store.

- `Store.Tables` is the whole database as a value: one map from id to row per
  table, the work-schedule table as a sequence of rows, and the sequence that
  hands out primary keys.
- `Store.Database` is the same store as an object whose table fields the
  handler methods update.
- Each writing handler is a pure `...Step` function from the old tables to an
  HTTP status and the new tables. Its contract states each branch's outcome.
  A method on `Database` runs the handler step by step, and its `ensures`
  ties the new state to the `...Step` function.
- `Api.Apply` dispatches any writing request to its handler. The lemmas
  beside it prove three whole-system facts:
  - the store stays well formed: every key is below the id sequence, and
    every class references a stored plan subject;
  - no plan subject ever holds more classes than its quota;
  - enrollment statuses move only along the lifecycle edges
    PLANNING → PENDING_APPROVAL → ACTIVE and PENDING_APPROVAL → PLANNING,
    except that a payment forces ACTIVE.

The model follows the code where the code and its comments disagree:

- approveEnrollment and requestChanges never check that the caller owns the
  enrollment, and submitForApproval never checks that the caller is one of
  its advisors. `EnrollmentController.TransitionsIgnoreCaller` proves that the
  caller's id makes no difference.
- A second progress report for a class is answered 500: the handler singles
  out only the foreign-key error. The 404 message mentions an existing
  report, but the code never returns 404 for one.
- The review route admits PARENT users, but the ownership check only finds
  CLIENT users, so a PARENT's review is always answered 500
  (`Api.ParentPassesGateButCannotReview`).
- scheduleClass looks the advisor up by the identity provider's id rather than by the caller's public.users row, so as written it books nothing. The model states that and uses the corrected lookup (see Findings).
- `number_of_classes` is never set by these handlers. A null quota compares
  as 0, so a plan subject created by addSubjectsToEnrollment admits no class
  (`ClassController.NullQuotaAdmitsNothing`).

Store errors and the identity provider are inputs:

- Boolean parameters stand for the store errors the handlers answer
  distinctly: the payment insert and the enrollment update, the
  work-schedule delete and insert, and an exception in the role lookup.
- Function parameters stand for the identity provider's sign-up, sign-in
  and token check.

## Model

| member | source | states |
|---|---|---|
| `Base.Single` | src/middleware/roleMiddleware.js:21-29 | a `.single()` query yields the one matching row, or nothing exactly when no row or two distinct rows match |
| `Store.SetEnrollmentStatus` | src/controllers/enrollmentController.js:162-170 | a status update on one enrollment changes that row's status and nothing else: same keys, same request link, other rows and tables untouched |
| `Store.UserByEmail` | src/controllers/chatController.js:7-13 | the user found carries the email and is the only one that does; nothing is found when no user or two users carry it |
| `Store.ClientOfUser` | src/controllers/chatController.js:18-23 | the client row found belongs to the user and is its only one; otherwise the user has no client row or two |
| `Store.AdvisorOfUser` | src/controllers/classController.js:18-26 | the advisor row found belongs to the user and is its only one; otherwise the user has none or two |
| `Store.CallerAdvisor` | src/controllers/availabilityController.js:7-26 | a CLIENT resolves to null; any other role resolves to its advisor row, which belongs to that user; the lookup throws exactly when the user or its advisor row is missing |
| `EnrollmentController.CreateEnrollmentStep` | src/controllers/enrollmentController.js:11-60 | 400 without a request id and 404 for an unknown request, both leaving the store unchanged; otherwise 201, a new PLANNING enrollment under a fresh id, the request moved to UNDER_REVIEW, nothing else changed |
| `EnrollmentController.CreateEnrollment` | src/controllers/enrollmentController.js:8-65 | the method's answer and new tables are those of CreateEnrollmentStep on the old tables; the id it returns is the fresh key |
| `EnrollmentController.Project` | src/controllers/enrollmentController.js:81-90 | one row per requested subject, in order, each with the path's enrollment id, the five copied fields, and no quota |
| `EnrollmentController.ProjectionOnlyCopiesFiveFields` | src/controllers/enrollmentController.js:81-90 | requests that agree on the five copied fields produce identical rows, so any other field the client sends is dropped |
| `EnrollmentController.InsertAllContents` | src/controllers/enrollmentController.js:92-95 | a multi-row insert puts row i under key first+i, adds exactly those keys, and leaves every old row as it was |
| `EnrollmentController.AddSubjectsStep` | src/controllers/enrollmentController.js:75-103 | 400 for a missing or empty list; 500 when the enrollment does not exist; 201 exactly otherwise, with the projected rows under consecutive fresh keys and only plan_subjects and the id sequence changed |
| `EnrollmentController.AddSubjectsToEnrollment` | src/controllers/enrollmentController.js:70-104 | the method's answer and new tables are those of AddSubjectsStep |
| `EnrollmentController.ApproveStep` | src/controllers/enrollmentController.js:115-183 | 401 without a user id, 404 when the joined enrollment row is missing, 400 unless PENDING_APPROVAL; 200 exactly when all of these pass, setting ACTIVE; no change otherwise |
| `EnrollmentController.ApproveEnrollment` | src/controllers/enrollmentController.js:115-183 | the method's answer and new tables are those of ApproveStep |
| `EnrollmentController.EchoComments` | src/controllers/enrollmentController.js:263 | the echoed comments are the request's comments when they are truthy, and null otherwise |
| `EnrollmentController.RequestChangesStep` | src/controllers/enrollmentController.js:196-270 | the same 401/404/400 chain as approve; 200 exactly from PENDING_APPROVAL, setting PLANNING; no change otherwise |
| `EnrollmentController.RequestChanges` | src/controllers/enrollmentController.js:196-270 | the method's answer and new tables are those of RequestChangesStep; the comments are echoed only on 200 |
| `EnrollmentController.SubmitStep` | src/controllers/enrollmentController.js:283-354 | 401, then 404, then 400 when no plan subject is found (checked before the status), then 400 unless PLANNING; 200 exactly otherwise, setting PENDING_APPROVAL |
| `EnrollmentController.SubmitForApproval` | src/controllers/enrollmentController.js:283-354 | the method's answer and new tables are those of SubmitStep |
| `EnrollmentController.TransitionsIgnoreCaller` | src/controllers/enrollmentController.js:115-341 | approve, requestChanges and submit give the same answer and the same store for any two authenticated callers: none of them checks ownership or assignment |
| `EnrollmentController.SubmitThenRequestChangesRestores` | src/controllers/enrollmentController.js:237-252 | submitting and then requesting changes gives back exactly the original store |
| `EnrollmentController.SubmitThenApproveActivates` | src/controllers/enrollmentController.js:155-170 | a submitted plan can be approved to ACTIVE, and a second approval is refused with 400 and no effect |
| `ClassController.ClassCountAfterInsert` | src/controllers/classController.js:57-60 | inserting a class under a fresh key raises its own plan subject's count by one and leaves every other count unchanged |
| `ClassController.ScheduleGuard` | src/controllers/classController.js:12-66 | with the caller's advisor row found from the email through public.users (the corrected lookup), the guards answer in source order. The order is 400 missing fields, 403 not an advisor, then 404 unknown plan subject (the corrected answer: the code as written answers 500 there, see Findings). Then come 500 for a missing plan row, 400 plan not ACTIVE, 403 other tenant, 400 other student and 400 quota reached. A request is admitted exactly when every check passes, for the caller's advisor row and tenant |
| `ClassController.ScheduleClassStep` | src/controllers/classController.js:12-87 | 201 exactly when the guards admit the request, inserting one SCHEDULED class with the caller's advisor id and tenant under a fresh key; a refused request is answered with the guard's status and changes nothing |
| `ClassController.ScheduleClass` | src/controllers/classController.js:7-93 | the method's answer and new tables are those of ScheduleClassStep; it returns the new class id exactly on 201 |
| `ClassController.InactivePlanRefused` | src/controllers/classController.js:46-48 | a plan that is not ACTIVE is refused with 400 and no change, whatever quota remains |
| `ClassController.FullQuotaRefused` | src/controllers/classController.js:64-66 | once the count reaches the quota, every request for that plan subject fails and inserts nothing |
| `ClassController.NullQuotaAdmitsNothing` | src/controllers/classController.js:64 | a plan subject without number_of_classes never receives a class |
| `ClassController.ScheduleKeepsQuota` | src/controllers/classController.js:57-83 | from a well-formed store within quota, scheduling keeps it well formed and within quota, and a 201 raises the plan subject's count by exactly one |
| `ClassController.ScheduleClassAsWritten` | src/controllers/classController.js:9-26 | the handler as written looks the advisor up by the identity provider's id, which no advisor row carries: 400 for missing fields, 403 for every complete request, and never a change |
| `ClassController.AsWrittenNeverSchedules` | src/controllers/classController.js:18-26 | the handler as written never books a class, while the corrected one books every request its guards admit |
| `ClassController.AdvisorCannotSchedule` | src/controllers/classController.js:18-26 | on a concrete store (an advisor, an ACTIVE plan of its tenant, free quota), the corrected handler answers 201 where the code as written answers 403 |
| `ClassController.PlanSubjectLookupAsWritten` | src/controllers/classController.js:29-43 | with the caller identified by email, the plan-subject lookup as written answers an unknown plan subject with 500 (the `.single()` error is rethrown) and never 404; every other request behaves as ScheduleClassStep |
| `ClassController.MissingPlanSubjectAnswers500` | src/controllers/classController.js:39-43 | on a concrete request for a missing plan subject, the lookup as written answers 500 where 404 is intended |
| `ClassController.FormatEntry` | src/controllers/classController.js:128-137 | a calendar entry copies the class's own columns; subject and advisor are the nested names when truthy and 'N/A' otherwise, so never empty |
| `ClassController.FormatCalendar` | src/controllers/classController.js:128-137 | one formatted entry per class, in query order |
| `ClassController.FormatCalendarAppend` | src/controllers/classController.js:128-137 | formatting a concatenation is the concatenation of the formatted parts |
| `ChatController.ResolveProfile` | src/controllers/chatController.js:6-36 | fails exactly when the user, or the client or advisor row its role needs, is missing; a CLIENT gets only a client id and an ADVISOR or ACADEMY_ADMIN only an advisor id, both the user's own; any other role gets neither |
| `ChatController.GetUserProfile` | src/controllers/chatController.js:6-36 | the profile the method builds field by field is ResolveProfile's |
| `ChatController.GetConversations` | src/controllers/chatController.js:41-76 | 500 exactly when the profile fails, 403 exactly when it has neither id; on 200 the listing is exactly the conversations the caller takes part in |
| `ChatController.GetMessages` | src/controllers/chatController.js:81-123 | 500 on a profile failure, then 404 for an unknown conversation, then 403 for a non-participant; 200 exactly otherwise, listing every message of the conversation and nothing more |
| `ChatController.SendMessageStep` | src/controllers/chatController.js:128-169 | 400 for empty content before any lookup; otherwise getMessages' refusals with no change; 201 exactly when the caller may read the conversation, storing one message from the caller's user id under a fresh key |
| `ChatController.SendMessage` | src/controllers/chatController.js:128-169 | the method's answer and new tables are those of SendMessageStep; it returns the new message id exactly on 201 |
| `ChatController.ParticipationFollowsRole` | src/controllers/chatController.js:96-97 | a CLIENT takes part exactly in its client row's conversations, an ADVISOR or ACADEMY_ADMIN exactly in its advisor row's, and a SUPER_ADMIN or PARENT in none |
| `ChatController.ListedConversationsAreReadable` | src/controllers/chatController.js:47-64 | every conversation getConversations lists is one whose messages getMessages lets the same caller read |
| `ChatController.SendThenRead` | src/controllers/chatController.js:153-159 | after a 201 the conversation reads back with exactly the previous messages plus the new one |
| `PaymentController.RegisterPaymentStep` | src/controllers/paymentController.js:10-46 | 400 for a missing field, 500 with no change when the insert fails; once inserted, the PAID payment stays even when the update fails (500) or finds no enrollment (404); 201 exactly when both writes succeed, with the enrollment set to ACTIVE |
| `PaymentController.RegisterPayment` | src/controllers/paymentController.js:6-52 | the method's answer and new tables are those of RegisterPaymentStep, performing the two writes one after the other |
| `PaymentController.PaymentForcesActive` | src/controllers/paymentController.js:26-30 | a 201 makes the paid enrollment ACTIVE whatever its previous status, touching no other enrollment, request or plan subject |
| `PaymentController.MissingEnrollmentKeepsPayment` | src/controllers/paymentController.js:38-40 | with no enrollment to update the answer is 404, yet the payment table has grown by one row and the enrollments are unchanged |
| `ReviewController.ClientUserByEmail` | src/controllers/reviewController.js:8-15 | a CLIENT user is found exactly when exactly one CLIENT user holds the email, and it is that user; users of other roles with the same email are ignored |
| `ReviewController.OwnerClientOf` | src/controllers/reviewController.js:27-35 | the owner is the client of the student of the enrollment's request, and is undefined exactly when a link of that chain is missing |
| `ReviewController.IsClientOwner` | src/controllers/reviewController.js:6-39 | throws exactly when the CLIENT user, its client row or the enrollment is missing; true exactly when the caller's client row owns the enrollment |
| `ReviewController.CreateReviewStep` | src/controllers/reviewController.js:45-90 | 400 for a missing enrollment or rating and for a rating outside 1..5; then 500 when ownership cannot be resolved, 403 for a non-owner, 409 for a second review; 201 exactly otherwise, storing one PUBLISHED review |
| `ReviewController.CreateReview` | src/controllers/reviewController.js:45-90 | the method's answer and new tables are those of CreateReviewStep |
| `ReviewController.CreateReviewKeepsUniqueness` | src/controllers/reviewController.js:65-81 | from a well-formed store with at most one review per enrollment, createReview keeps both properties |
| `ReviewController.SecondReviewConflicts` | src/controllers/reviewController.js:77-81 | repeating a successful review is answered 409 and stores nothing |
| `ReviewController.NonClientReviewFails` | src/controllers/reviewController.js:8-15 | a caller whose email belongs to no CLIENT user gets 500 for any valid review |
| `ProgressReportController.CreateProgressReportStep` | src/controllers/progressReportController.js:18-52 | 400 unless class, topics, strengths and areas are present; 404 for an unknown class; 500 for a class that already has a report; 201 exactly otherwise, storing the report with its optional homework |
| `ProgressReportController.CreateProgressReport` | src/controllers/progressReportController.js:6-53 | the method's answer and new tables are those of CreateProgressReportStep |
| `ProgressReportController.CreateProgressReportKeepsConsistency` | src/controllers/progressReportController.js:28-46 | every report keeps pointing at a stored class, with at most one report per class, and the store stays well formed |
| `ProgressReportController.ReportStatusReadsOnlyClassesAndReports` | src/controllers/progressReportController.js:23-25 | the answer depends only on the body, the classes and the reports; no other table is read |
| `RoleMiddleware.RoleGate` | src/middleware/roleMiddleware.js:13-47 | 401 without an email, 500 when the lookup throws, 404 when no single user is found; passes exactly when the user's role is allowed, and otherwise answers 403 with that role and the allow-list |
| `RoleMiddleware.GateMonotone` | src/middleware/roleMiddleware.js:34 | a larger allow-list admits everyone a smaller one does, and an empty list admits no one |
| `RoleMiddleware.AdminGateIsExclusive` | src/routes/adminRoutes.js:14 | only a SUPER_ADMIN passes the admin routes, and it is refused by the review, specialization and availability gates |
| `AuthMiddleware.Split` | src/middleware/authMiddleware.js:9 | `split` on one character yields at least one field, none containing the separator, and the first field is the text before the first separator |
| `AuthMiddleware.JoinSplit` | src/middleware/authMiddleware.js:9 | joining the fields with the separator gives back the string |
| `AuthMiddleware.SplitAtFirst` | src/middleware/authMiddleware.js:9 | splitting at the first separator gives the text before it, followed by the fields of the text after it |
| `AuthMiddleware.Token` | src/middleware/authMiddleware.js:9 | the token is the text after "Bearer " up to the next space or the end |
| `AuthMiddleware.TokenOfWellFormedHeader` | src/middleware/authMiddleware.js:9 | for "Bearer t" with no space in t, the token is exactly t |
| `AuthMiddleware.Authenticate` | src/middleware/authMiddleware.js:4-20 | the request goes on, carrying the provider's user, exactly when the header starts with "Bearer " and the provider knows its token; every other case is 401 |
| `AuthMiddleware.WellFormedHeaderAsksForItsToken` | src/middleware/authMiddleware.js:9-12 | a "Bearer t" header authenticates exactly when the provider accepts t |
| `AvailabilityController.OwnedBy` | src/controllers/availabilityController.js:35-38 | the selection holds exactly the advisor's rows, each as often as it is stored |
| `AvailabilityController.Without` | src/controllers/availabilityController.js:68-71 | the delete keeps exactly the rows of other advisors, each as often as it is stored |
| `AvailabilityController.SortByDay` | src/controllers/availabilityController.js:39 | the result is ordered by day of week and is a permutation of its input |
| `AvailabilityController.GetWorkSchedule` | src/controllers/availabilityController.js:31-47 | the answer is ordered by day and holds exactly the advisor's stored slots, each as often as stored |
| `AvailabilityController.NewRows` | src/controllers/availabilityController.js:76-86 | one row per submitted slot, in order, tagged with the caller's advisor id under consecutive fresh ids |
| `AvailabilityController.SetWorkScheduleStep` | src/controllers/availabilityController.js:53-95 | 400 for a non-array (an empty array is accepted); 500 on a lookup error; 403 for a CLIENT; 500 with no change when the delete fails; 500 after the delete when the insert fails; 201 exactly otherwise, with the caller's rows replaced by the new ones |
| `AvailabilityController.SetWorkSchedule` | src/controllers/availabilityController.js:53-95 | the method's answer and new tables are those of SetWorkScheduleStep, with the delete and the insert as two writes |
| `AvailabilityController.SetThenGet` | src/controllers/availabilityController.js:67-86 | after a 201 the caller's schedule reads back as exactly the submitted slots, and every other advisor's reads back as before |
| `AvailabilityController.FailedInsertClearsSchedule` | src/controllers/availabilityController.js:83-88 | a failed insert after a successful delete leaves the caller with an empty schedule |
| `SpecializationController.GetTenantSpecializations` | src/controllers/specializationController.js:33-56 | 500 when the lookup throws, 403 for a CLIENT; 200 exactly for an advisor, listing exactly the specializations of the caller's tenant |
| `SpecializationController.CreateSpecializationStep` | src/controllers/specializationController.js:61-90 | 400 without subject or level, 500 on a lookup error, 403 for a CLIENT; 201 exactly otherwise, storing the row under the caller's own tenant |
| `SpecializationController.CreateSpecialization` | src/controllers/specializationController.js:61-90 | the method's answer and new tables are those of CreateSpecializationStep |
| `SpecializationController.CreatedIsListed` | src/controllers/specializationController.js:74-80 | a created specialization is new to the creator's listing and appears in it next to the tenant's earlier ones |
| `SpecializationController.TenantsAreIsolated` | src/controllers/specializationController.js:40-48 | callers of two different tenants never see each other's specializations |
| `AdminController.FirstAdmin` | src/controllers/adminController.js:34-35 | the position found is the first ACADEMY_ADMIN among the advisors; there is none exactly when no advisor is an ACADEMY_ADMIN |
| `AdminController.ContactField` | src/controllers/adminController.js:46-47 | the first admin's value when truthy, else the first advisor's when truthy, else 'N/A'; never empty |
| `AdminController.SimplifyTenants` | src/controllers/adminController.js:32-49 | one summary per tenant, in order, with the tenant's own columns and the admin contact chosen field by field |
| `AdminController.FallbacksAreIndependent` | src/controllers/adminController.js:46-47 | an admin without a name but with an email is listed with the first advisor's name and the admin's own email |
| `AdminController.ParseVerification` | src/controllers/adminController.js:66-69 | accepted exactly when the value is APPROVED or REJECTED, and never PENDING |
| `AdminController.ParseVerificationRoundTrip` | src/controllers/adminController.js:66-67 | each settable status is accepted under its own name, and PENDING is refused |
| `AdminController.VerifyTenantStep` | src/controllers/adminController.js:62-91 | 400 with no change for any other value, 404 for an unknown tenant; 200 exactly otherwise, changing only that tenant's verification status |
| `AdminController.VerifyTenant` | src/controllers/adminController.js:62-91 | the method's answer and new tables are those of VerifyTenantStep |
| `AdminController.VerifyTenantIdempotent` | src/controllers/adminController.js:72-77 | verifying a second time with the same value gives the same answer and changes nothing more |
| `AuthController.ParseTenantType` | src/controllers/authController.js:12-17 | the tenant type is accepted exactly when it is INDIVIDUAL_ADVISOR or ACADEMY |
| `AuthController.RoleFor` | src/controllers/authController.js:21 | the role is ACADEMY_ADMIN exactly for ACADEMY, and ADVISOR otherwise |
| `AuthController.RegisterUser` | src/controllers/authController.js:9-58 | 400 before any sign-up for a bad tenant type; otherwise the sign-up carries the mapped role and the full name as business name, and the provider's answer maps to 201, 400 for an already registered user, or 500 |
| `AuthController.RegistrationNeverGrantsOtherRoles` | src/controllers/authController.js:12-21 | self-registration only ever requests ADVISOR or ACADEMY_ADMIN, and the PARENT and SUPER_ADMIN tenant types are refused before the provider is asked |
| `AuthController.LoginUser` | src/controllers/authController.js:65-87 | 200 exactly when the provider signs the user in, 401 for any sign-in error |
| `Api.WithoutKeepsOldIds` | src/controllers/availabilityController.js:68-71 | the rows a delete keeps still have ids below the id sequence |
| `Api.ScheduleKeepsWellFormed` | src/controllers/classController.js:69-83 | scheduleClass keeps the store well formed: the new class takes a fresh id and references a stored plan subject |
| `Api.SetWorkScheduleKeepsWellFormed` | src/controllers/availabilityController.js:67-88 | setWorkSchedule keeps every slot's id below the id sequence, on success and after a failed insert |
| `Api.AddSubjectsKeepsWellFormed` | src/controllers/enrollmentController.js:92-95 | addSubjectsToEnrollment keeps every plan-subject key below the advanced id sequence |
| `Api.LifecycleKeepsWellFormed` | src/controllers/enrollmentController.js:33-40 | createEnrollment, approve, requestChanges and submit keep the store well formed |
| `Api.SendMessageKeepsWellFormed` | src/controllers/chatController.js:153-159 | sendMessage keeps the store well formed |
| `Api.RegisterPaymentKeepsWellFormed` | src/controllers/paymentController.js:15-30 | registerPayment keeps the store well formed, whichever of its writes fails |
| `Api.CreateReviewKeepsWellFormed` | src/controllers/reviewController.js:65-73 | createReview keeps the store well formed |
| `Api.CreateProgressReportKeepsWellFormed` | src/controllers/progressReportController.js:28-38 | createProgressReport keeps the store well formed |
| `Api.CreateSpecializationKeepsWellFormed` | src/controllers/specializationController.js:74-80 | createSpecialization keeps the store well formed |
| `Api.VerifyTenantKeepsWellFormed` | src/controllers/adminController.js:72-77 | verifyTenant keeps the store well formed |
| `Api.ApplyKeepsWellFormed` | src/controllers/classController.js:69-83 | every writing handler keeps every key below the id sequence and every class attached to a stored plan subject |
| `Api.AddSubjectsKeepsQuota` | src/controllers/enrollmentController.js:81-90 | adding plan subjects keeps every plan subject within its quota: the new ones have no classes and the old ones keep their rows |
| `Api.OthersLeavePlansAlone` | src/controllers/classController.js:57-64 | every handler except scheduleClass and addSubjectsToEnrollment leaves the classes and plan subjects, which the quota check reads, unchanged |
| `Api.ApplyKeepsQuota` | src/controllers/classController.js:57-66 | from a well-formed store, no writing handler ever lets a plan subject exceed its quota |
| `Api.StatusMovesAlongEdges` | src/controllers/enrollmentController.js:33-341 | no handler removes an enrollment; its status stays, moves along a lifecycle edge, or becomes ACTIVE through a payment; a new enrollment starts in PLANNING |
| `Api.OthersLeaveEnrollmentsAlone` | src/controllers/paymentController.js:26-30 | only createEnrollment, the three transitions and registerPayment write enrollments; every other handler leaves them unchanged |
| `Api.CreateEnrollmentMoves` | src/controllers/enrollmentController.js:33-40 | createEnrollment keeps every existing enrollment and adds one only under a fresh id, in PLANNING |
| `Api.TransitionsMove` | src/controllers/enrollmentController.js:155-170 | approve, requestChanges and submit change an enrollment's status only along a lifecycle edge |
| `Api.RegisterPaymentMoves` | src/controllers/paymentController.js:26-30 | registerPayment changes an enrollment's status only by forcing it to ACTIVE |
| `Api.PaymentBypassesApproval` | src/controllers/paymentController.js:26-30 | paying for a plan still in PLANNING makes it ACTIVE without approval, after which approval is refused with 400 |
| `Api.ParentPassesGateButCannotReview` | src/routes/reviewRoutes.js:50 | a PARENT passes the review route's role gate, yet any valid review from a PARENT is answered 500 with no change |

## Left out

- Timestamps (`created_at`, `updated_at`, `paid_at`) are not stored: they are wall-clock values no handler reads back.
- The payment fee and net amount are not stored: they are floating-point arithmetic on a constant fee that no handler reads back.
- The race between scheduleClass's count and its insert is not modelled: each handler runs to completion before the next starts, so the quota property is stated per call.
- getEnrollmentById is not modelled: it is a nested read that only maps a missing row to 404.
- requestController and supportController are not modelled: they pass selects through to the database's row-level security and hold no logic.
- Express routing and server start-up are not modelled. The route allow-lists are constants in `RoleMiddleware`.
- The Supabase client is not modelled. Store errors are modelled only where the handler answers them distinctly. Every other write is assumed to succeed, and a store error on a read is not modelled.
- Message order (`created_at`) and conversation order are not modelled: listings are sets of ids, and rows carry no timestamps.
- `AvailabilityController.GetWorkSchedule`: the order among slots of the same day is the store's, which is unspecified. The model fixes one order, so the contract states the day ordering and the multiset of slots, not a position for each slot. Its 500 path on a store error is not modelled.
- `ReviewController.CreateReviewStep`: ratings are integers. A fractional rating such as 4.5 passes the code's bounds check, but the model cannot express it.
- Path ids are modelled as positive integers. A non-numeric id, which the store would reject with an error, is not modelled.
- `AdminController.SimplifyTenants`: every advisor in the nested listing is assumed to carry its user row. The code would throw on an advisor whose `users` is null.
- `ClassController.PlanOf`: the embedded `plans ( id, status, tenant_id, student_id )` row is read as the plan subject's enrollment, with the tenant and student of that enrollment's tutoring request. No other handler uses a `plans` relation: they link plan subjects to enrollments through `enrollment_id`. If the store has no such relation, the query errs and the handler answers 500 to every request that gets past the advisor check.
- `Store.Tables`: one id sequence (`nextId`) serves every table, whereas the database has a sequence per table. The lemmas only use the fact that a fresh key is not yet stored, which holds either way.
- `SpecializationController.CallerTenant`: an advisor's tenant is never null in the model, so the 403 the specialization handlers answer to an advisor row without a tenant cannot arise.
- `AuthController.LoginUser`: an exception thrown by the sign-in call itself (500) is not modelled. The provider is a total function to accepted or refused.
- `AuthController.RegisterUser`: the sign-up's user object in the 201 body is not modelled, nor is the database trigger that would create the users, tenants and advisors rows.

## Findings

| source | as written | input that shows it | evidently intended | confidence | as-written member | corrected member |
|---|---|---|---|---|---|---|
| src/controllers/classController.js:9-26 | the advisor is looked up with `.eq('user_id', req.user.id)`. req.user is the identity provider's user, whose id is a UUID, while advisors.user_id holds the numeric id of a public.users row. No advisor matches, so every complete request is answered 403 | user 7 (ana@x) owns advisor row 1 of tenant 2; ACTIVE enrollment 6 on request 4 (tenant 2, student 3); plan subject 5 with a quota of one and no classes; a complete request for plan subject 5 and student 3 | the caller's advisor row is found from the email through public.users, as availabilityController.js:7-22 does, and the class is booked with 201 | not executed | `ClassController.ScheduleClassAsWritten` | `ClassController.ScheduleClassStep` |
| src/controllers/classController.js:29-43 | once the caller is found, the plan-subject query uses `.single()`, whose missing-row error is rethrown before the `!planSubject` test, so an unknown plan subject is answered 500 and the 404 branch is dead | user 7 (ana@x) owns advisor row 1, no plan subjects, a complete request for plan subject 5 | 404 "the plan subject does not exist" | not executed | `ClassController.PlanSubjectLookupAsWritten` | `ClassController.ScheduleClassStep` |
