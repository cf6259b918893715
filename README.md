# Appraisal workflow

A Dafny model of the Appraxis performance-appraisal system: the four Spring
services that drive an appraisal cycle through its workflow, and the client
code that keeps the signed-in session, guards the signed-in pages and edits
the per-question rating drafts.

**Back end.** HR opens a cycle for an employee and a year (status OPEN),
assigns a project manager (PENDING_PM_REVIEW, with one PENDING review), the
manager submits one rating per question (review SUBMITTED, cycle
PENDING_BOSS_REVIEW), and the boss writes a final comment (CLOSED). Meanwhile
the employee answers a self-assessment, reads a report that sets the
manager's average beside the self rating for each question, and may reply
once to each commented rating.

- `Model` holds the entities, with references replaced by row ids, and the
  service errors with their messages.
- `Tables` holds the repository operations on tables of rows: `findById`,
  `save` of a loaded row, insertion with the next generated id, and derived
  finders as filters.
- `Repositories` holds the `Database` class, one table field per
  repository, and the workflow constraints every operation keeps
  (`Consistent`). These say:
  - there is at most one cycle per (employee, year) and one review per cycle;
  - PENDING_EMPLOYEE_CLARIFICATION never occurs;
  - a PENDING review's cycle awaits the manager;
  - ratings belong to SUBMITTED reviews;
  - there is at most one clarification per rating.

  `Advances` states that a cycle's status only moves forward along
  OPEN, PENDING_PM_REVIEW, PENDING_BOSS_REVIEW, CLOSED, and that CLOSED is
  terminal.
- Each service method checks its error conditions in the source's order.
  On an error it changes nothing. On success it commits exactly the effect
  function beside it. A `@Transactional` method is all or nothing.
- The read side (`getReport`, `getFeedback`) keeps the source's loops.
  Each loop is proved equal to a specification function, and lemmas say
  which stored rows each entry comes from.

**Front end.**
- `SessionCodec` is the `JSON.stringify`/`JSON.parse` pair for the stored
  user, with its round trip proved.
- `AuthContext` holds the provider's state cells and browser storage, as a
  class and as pure state functions.
- `ProtectedRoute` is the guard's decision.
- `QuestionDrafts`, `ReviewForm` and `EmployeeDashboard` model the
  rating-draft arrays. Those arrays are edited in place.

Clocks are parameters: `today: Date` for `LocalDate.now()` and
`now: Timestamp` for `LocalDateTime.now()`. Browser storage is a
`map<string, string>`.

## Model

| member | source | states |
|---|---|---|
| Repositories.FindByEmployeeAndYear | backend/src/main/java/dev/thalha/appraxis/repository/AppraisalRepository.java:13 | the found cycle is stored and has that employee and year; `None` only when no stored cycle has both |
| Repositories.FindByPmRating | backend/src/main/java/dev/thalha/appraxis/repository/ClarificationRepository.java:12 | the found clarification is stored and answers that rating; `None` only when no stored clarification does |
| Repositories.Advances | backend/src/main/java/dev/thalha/appraxis/service/BossService.java:60-61 | the workflow order: no cycle disappears or changes owner, initiator, start date or year, no status moves back along OPEN, PENDING_PM_REVIEW, PENDING_BOSS_REVIEW, CLOSED, and a CLOSED cycle never changes |
| Repositories.OpenCycleHasNoReview | backend/src/main/java/dev/thalha/appraxis/service/AppraisalService.java:71-73 | in a consistent store an OPEN cycle has no review yet, so `assignPm` cannot create a second review for a cycle |
| AppraisalService.GetAllEmployees | backend/src/main/java/dev/thalha/appraxis/service/AppraisalService.java:28-33 | the result is exactly the users holding EMPLOYEE and not BOSS, in table order |
| AppraisalService.GetAllPms | backend/src/main/java/dev/thalha/appraxis/service/AppraisalService.java:35-37 | the result is exactly the users holding PROJECT_MANAGER, in table order |
| AppraisalService.InitiateKeepsConsistent | backend/src/main/java/dev/thalha/appraxis/service/AppraisalService.java:51-63 | appending an OPEN cycle of a stored user whose (employee, year) pair is new keeps every workflow constraint, including at most one cycle per pair |
| AppraisalService.InitiateAppraisal | backend/src/main/java/dev/thalha/appraxis/service/AppraisalService.java:43-64 | fails with "Employee not found", then "Can only initiate appraisal for employees", then "already exists for year", changing nothing; otherwise stores exactly one new OPEN cycle with the employee, initiator, today's date and year, and nothing else changes |
| AppraisalService.AssignKeepsConsistent | backend/src/main/java/dev/thalha/appraxis/service/AppraisalService.java:82-91 | moving an OPEN cycle to PENDING_PM_REVIEW and adding one PENDING review by a stored user keeps every workflow constraint, including one review per cycle |
| AppraisalService.AssignPm | backend/src/main/java/dev/thalha/appraxis/service/AppraisalService.java:66-92 | fails with "Appraisal cycle not found", "not in OPEN status", "PM not found" or "not a Project Manager", in that order and before any write; otherwise adds one PENDING review of the cycle by the PM and sets the cycle to PENDING_PM_REVIEW |
| AppraisalService.AssignPmTwice | backend/src/main/java/dev/thalha/appraxis/service/AppraisalService.java:71-73 | after a successful assignment, a second `assignPm` on the same cycle fails with "not in OPEN status" |
| PmReviewService.GetPendingReviews | backend/src/main/java/dev/thalha/appraxis/service/PmReviewService.java:31-33 | the result is exactly the reviewer's PENDING reviews, in table order |
| PmReviewService.GetActiveQuestions | backend/src/main/java/dev/thalha/appraxis/service/PmReviewService.java:35-37 | the result is exactly the questions whose `active` flag is set, in table order |
| PmReviewService.NewRatings | backend/src/main/java/dev/thalha/appraxis/service/PmReviewService.java:48-59 | one rating row per input entry, in order, with fresh consecutive ids, linked to the review and carrying the entry's question, rating and comment |
| PmReviewService.BuildRatings | backend/src/main/java/dev/thalha/appraxis/service/PmReviewService.java:48-59 | the loop yields the new rating rows exactly when every entry names a stored question, and then exactly `NewRatings` |
| PmReviewService.SubmitKeepsConsistent | backend/src/main/java/dev/thalha/appraxis/service/PmReviewService.java:48-68 | storing the ratings, marking the review SUBMITTED with its feedback date and the cycle PENDING_BOSS_REVIEW keeps every workflow constraint and advances the workflow |
| PmReviewService.SubmitReview | backend/src/main/java/dev/thalha/appraxis/service/PmReviewService.java:39-69 | fails with "Review not found", then "Review is already submitted", then "Question not found", changing nothing (the transaction rolls back); otherwise commits exactly `SubmitEffect`: the ratings appended, the review SUBMITTED at `now`, its cycle PENDING_BOSS_REVIEW |
| PmReviewService.SubmitReviewTwice | backend/src/main/java/dev/thalha/appraxis/service/PmReviewService.java:44-46 | after a successful submission, resubmitting the same review fails with "Review is already submitted" |
| BossService.GetPendingReviews | backend/src/main/java/dev/thalha/appraxis/service/BossService.java:24-28 | the result is exactly the cycles in PENDING_BOSS_REVIEW, in table order |
| BossService.GetSummary | backend/src/main/java/dev/thalha/appraxis/service/BossService.java:30-45 | fails with "Cycle not found" for an unknown cycle; otherwise carries the cycle id, the employee's name and designation, the status name, and exactly the report and the feedback the employee sees |
| BossService.FinalizeKeepsConsistent | backend/src/main/java/dev/thalha/appraxis/service/BossService.java:60-62 | closing a cycle that awaits the boss with a comment keeps every workflow constraint and advances the workflow |
| BossService.FinalizeAppraisal | backend/src/main/java/dev/thalha/appraxis/service/BossService.java:47-63 | fails with "Cycle not found", then "already closed", then "not ready for final review" with the current status, changing nothing; otherwise stores the comment and closes the cycle, and nothing else changes |
| BossService.FinalizeTwice | backend/src/main/java/dev/thalha/appraxis/service/BossService.java:52-54 | a closed cycle cannot be finalised again |
| Decimal.DecimalString | backend/src/main/java/dev/thalha/appraxis/service/EmployeeService.java:43 | the year numeral is digits only without a leading zero |
| Decimal.ParseDecimalString | backend/src/main/java/dev/thalha/appraxis/service/EmployeeService.java:43 | reading the numeral back gives the year |
| Decimal.DecimalStringInjective | backend/src/main/java/dev/thalha/appraxis/service/EmployeeService.java:43 | distinct years give distinct numerals |
| EmployeeService.GetActiveCycle | backend/src/main/java/dev/thalha/appraxis/service/EmployeeService.java:42-46 | the result is a stored cycle of the employee for the current calendar year; `None` (null) only when there is none |
| EmployeeService.ActiveCycleIsThisYears | backend/src/main/java/dev/thalha/appraxis/service/EmployeeService.java:42-46 | with one cycle per (employee, year), an employee's cycle for year y is the active one exactly on days of year y |
| EmployeeService.Report | backend/src/main/java/dev/thalha/appraxis/service/EmployeeService.java:76-88 | one entry per stored question, in `findAll` order, with that question's text and category |
| EmployeeService.CollectSelfRatings | backend/src/main/java/dev/thalha/appraxis/service/EmployeeService.java:53-57 | the loop builds the question-to-rating map of the answers given, later answers overwriting earlier ones |
| EmployeeService.AddScores | backend/src/main/java/dev/thalha/appraxis/service/EmployeeService.java:71-73 | the loop appends each rating to its question's score list, in order |
| EmployeeService.CollectPmScores | backend/src/main/java/dev/thalha/appraxis/service/EmployeeService.java:65-74 | the nested loop gives every question the scores of the given reviews' ratings, review by review |
| EmployeeService.BuildReport | backend/src/main/java/dev/thalha/appraxis/service/EmployeeService.java:76-86 | one entry per question in order, each with the question's text and category, the average of its collected scores (0.0 for none) and its self rating if any |
| EmployeeService.ReportFromMaps | backend/src/main/java/dev/thalha/appraxis/service/EmployeeService.java:76-86 | entries built from the collected self-rating map and score lists are exactly the cycle's `Report` |
| EmployeeService.GetReport | backend/src/main/java/dev/thalha/appraxis/service/EmployeeService.java:48-89 | fails with "Cycle not found" for an unknown cycle; otherwise returns exactly `Report` of the current tables |
| EmployeeService.SelfRatingPresent | backend/src/main/java/dev/thalha/appraxis/service/EmployeeService.java:53-57 | a question is in the self-rating map exactly when the cycle holds an answer to it |
| EmployeeService.SelfRatingIsLatest | backend/src/main/java/dev/thalha/appraxis/service/EmployeeService.java:55-57 | the mapped rating is that of the cycle's last answer to the question |
| EmployeeService.ReportSelfRatingPresent | backend/src/main/java/dev/thalha/appraxis/service/EmployeeService.java:53-80 | a report entry has a self rating exactly when the cycle holds an answer to its question |
| EmployeeService.ReportSelfRatingIsLatest | backend/src/main/java/dev/thalha/appraxis/service/EmployeeService.java:53-80 | with several answers to a question the report shows the last one |
| EmployeeService.ScoresInMembers | backend/src/main/java/dev/thalha/appraxis/service/EmployeeService.java:71-73 | a score is collected for a question exactly when some rating of that question has it |
| EmployeeService.PmScoresMembers | backend/src/main/java/dev/thalha/appraxis/service/EmployeeService.java:65-74 | a score is collected exactly when some rating of one of the given reviews has it for that question |
| EmployeeService.RatedInSubmitted | backend/src/main/java/dev/thalha/appraxis/service/EmployeeService.java:60-63 | restricted to the cycle's reviews, a rating counts exactly when its review belongs to the cycle and is SUBMITTED |
| EmployeeService.PmAverageSources | backend/src/main/java/dev/thalha/appraxis/service/EmployeeService.java:60-82 | a score is among those averaged for a question exactly when some rating of it in one of the cycle's SUBMITTED reviews has that score |
| EmployeeService.SplitScores | backend/src/main/java/dev/thalha/appraxis/service/EmployeeService.java:65-74 | selecting ratings by either of two disjoint conditions collects the scores of both selections, each as often, with the same sum |
| EmployeeService.PmScoresAsSelection | backend/src/main/java/dev/thalha/appraxis/service/EmployeeService.java:65-74 | collecting review by review yields the scores of the listed reviews' ratings, each as often as it occurs and with the same sum: none dropped, none counted twice |
| EmployeeService.ReportAverageOverCounted | backend/src/main/java/dev/thalha/appraxis/service/EmployeeService.java:60-83 | with unique review ids, the scores averaged for a question are, as a multiset, exactly the scores of its ratings in the cycle's SUBMITTED reviews, and the PM average is their average |
| EmployeeService.AveragesZeroBeforeSubmission | backend/src/main/java/dev/thalha/appraxis/service/EmployeeService.java:83 | before any review of the cycle is submitted every PM average is 0.0 |
| EmployeeService.SumWithin | backend/src/main/java/dev/thalha/appraxis/service/EmployeeService.java:83 | a sum of n scores between lo and hi lies between n*lo and n*hi |
| EmployeeService.AverageWithin | backend/src/main/java/dev/thalha/appraxis/service/EmployeeService.java:83 | the average of scores between lo and hi lies between lo and hi |
| EmployeeService.ReportAverageWithin | backend/src/main/java/dev/thalha/appraxis/service/EmployeeService.java:60-83 | when some rating counts for a report entry, its PM average lies within any bounds lo <= hi of the ratings that count |
| EmployeeService.ReportAverageZero | backend/src/main/java/dev/thalha/appraxis/service/EmployeeService.java:83 | when no rating counts for a report entry, its PM average is 0.0 |
| EmployeeService.ReplyTo | backend/src/main/java/dev/thalha/appraxis/service/EmployeeService.java:126-128 | `None` (null) exactly when the rating has no clarification; otherwise a stored reply to that rating |
| EmployeeService.CollectReviewFeedback | backend/src/main/java/dev/thalha/appraxis/service/EmployeeService.java:124-139 | the inner loop lists exactly the review's ratings with a non-empty comment, in order |
| EmployeeService.GetFeedback | backend/src/main/java/dev/thalha/appraxis/service/EmployeeService.java:109-142 | fails with "Cycle not found" for an unknown cycle; otherwise returns exactly `Feedback` of the current tables |
| EmployeeService.ItemsOfMembers | backend/src/main/java/dev/thalha/appraxis/service/EmployeeService.java:124-138 | an item is listed for a review exactly when one of its ratings has a non-empty comment and the item describes it |
| EmployeeService.FeedbackOverSound | backend/src/main/java/dev/thalha/appraxis/service/EmployeeService.java:119-140 | every listed item describes a commented rating of one of the reviews |
| EmployeeService.FeedbackOverComplete | backend/src/main/java/dev/thalha/appraxis/service/EmployeeService.java:119-140 | every commented rating of one of the reviews is listed |
| EmployeeService.FeedbackOverMembers | backend/src/main/java/dev/thalha/appraxis/service/EmployeeService.java:119-140 | both directions together |
| EmployeeService.GivenInSubmitted | backend/src/main/java/dev/thalha/appraxis/service/EmployeeService.java:113-115 | restricted to the cycle's reviews, an item comes from a rating exactly when that rating belongs to a SUBMITTED review of the cycle |
| EmployeeService.FeedbackMembers | backend/src/main/java/dev/thalha/appraxis/service/EmployeeService.java:113-140 | an item is in a cycle's feedback exactly when it describes a rating with a non-null, non-empty comment in one of the cycle's SUBMITTED reviews |
| EmployeeService.NewSelfAssessments | backend/src/main/java/dev/thalha/appraxis/service/EmployeeService.java:96-107 | one answer row per submission, in order, with fresh consecutive ids, for the cycle, carrying the submission's question, rating and comment |
| EmployeeService.BuildSelfAssessments | backend/src/main/java/dev/thalha/appraxis/service/EmployeeService.java:96-107 | the loop yields the new rows exactly when every submission names a stored question, and then exactly `NewSelfAssessments` |
| EmployeeService.SelfAssessmentKeepsConsistent | backend/src/main/java/dev/thalha/appraxis/service/EmployeeService.java:96-107 | appending the answers of a stored cycle for stored questions keeps every workflow constraint |
| EmployeeService.SubmitSelfAssessment | backend/src/main/java/dev/thalha/appraxis/service/EmployeeService.java:91-108 | fails with "Cycle not found", then "Question not found", changing nothing (rollback); otherwise appends exactly the answers, with no status or duplicate check |
| EmployeeService.SelfAssessmentShowsInReport | backend/src/main/java/dev/thalha/appraxis/service/EmployeeService.java:96-107 | after a submission, the report shows for each question the last rating submitted for it |
| EmployeeService.ClarificationKeepsConsistent | backend/src/main/java/dev/thalha/appraxis/service/EmployeeService.java:153-157 | adding the first reply to a stored rating keeps every workflow constraint, including one clarification per rating |
| EmployeeService.SubmitClarification | backend/src/main/java/dev/thalha/appraxis/service/EmployeeService.java:144-158 | fails with "Rating not found", then "Clarification already submitted", changing nothing; otherwise stores exactly one clarification with the reply |
| EmployeeService.ClarificationShowsInFeedback | backend/src/main/java/dev/thalha/appraxis/service/EmployeeService.java:153-157 | after a reply is stored, the feedback shows it as the rating's existing clarification |
| EmployeeService.SubmitClarificationTwice | backend/src/main/java/dev/thalha/appraxis/service/EmployeeService.java:149-151 | after a successful reply, a second reply to the same rating fails |
| SessionCodec.ParseStringify | frontend/src/context/AuthContext.tsx:30-37 | `JSON.parse` of what `JSON.stringify` wrote for a user gives back that user |
| SessionCodec.StringifyInjective | frontend/src/context/AuthContext.tsx:37 | distinct users are stored as distinct texts |
| AuthContext.Fresh | frontend/src/context/AuthContext.tsx:20-22 | a mounted provider starts with storage as found, no user, no token, loading |
| AuthContext.AfterInit | frontend/src/context/AuthContext.tsx:24-33 | token and user change only when both entries are stored and non-empty, and then the token is the stored one; loading ends unless `JSON.parse` throws, and then the user is untouched; storage is not written |
| AuthContext.AfterLogin | frontend/src/context/AuthContext.tsx:35-40 | both entries are written, the user entry parses back to the user, no other entry changes, and token and user are set |
| AuthContext.AfterLogout | frontend/src/context/AuthContext.tsx:42-47 | both entries are removed, no other entry changes, and token and user become null |
| AuthContext.HasRole | frontend/src/context/AuthContext.tsx:49-51 | true exactly when there is a user with a role list containing the role; false without a user or without roles |
| AuthContext.LoginThenReload | frontend/src/context/AuthContext.tsx:25-37 | after a login with a non-empty token, the next page load restores that token and user and ends loading |
| AuthContext.LogoutThenReload | frontend/src/context/AuthContext.tsx:42-47 | after a logout, the next page load starts signed out and ends loading |
| AuthContext.LogoutIdempotent | frontend/src/context/AuthContext.tsx:42-47 | logging out twice gives the state of logging out once |
| AuthContext.PairedKept | frontend/src/context/AuthContext.tsx:28-46 | login and logout set and clear token and user together; init does too unless the stored user text is `null` or does not parse |
| AuthContext.AuthProvider.constructor | frontend/src/context/AuthContext.tsx:20-22 | the state cells start as `Fresh` |
| AuthContext.AuthProvider.Initialize | frontend/src/context/AuthContext.tsx:24-33 | the effect reaches `AfterInit` and reports whether `JSON.parse` threw |
| AuthContext.AuthProvider.Login | frontend/src/context/AuthContext.tsx:35-40 | the cells and storage become `AfterLogin` |
| AuthContext.AuthProvider.Logout | frontend/src/context/AuthContext.tsx:42-47 | the cells and storage become `AfterLogout` |
| ProtectedRoute.Guard | frontend/src/components/ProtectedRoute.tsx:4-16 | the placeholder exactly while loading; otherwise a redirect to /login exactly when the token is null or empty, and the protected page exactly when it is not |
| ProtectedRoute.NoDecisionBeforeInit | frontend/src/components/ProtectedRoute.tsx:7-9 | a freshly mounted provider shows the placeholder; once the init effect completes without throwing, the guard redirects or renders |
| ProtectedRoute.LogoutRedirects | frontend/src/components/ProtectedRoute.tsx:11-13 | after loading, a logout redirects to /login |
| ProtectedRoute.LoginRenders | frontend/src/components/ProtectedRoute.tsx:15 | after loading, a login with a non-empty token opens the protected page, now and after a reload |
| ProtectedRoute.ReloadAfterLogoutRedirects | frontend/src/components/ProtectedRoute.tsx:11-13 | a page load after a logout ends on the redirect |
| QuestionDrafts.BlankDrafts | frontend/src/pages/ReviewForm.tsx:41-45 | one draft per question, in order, with the question's id, rating 5 and an empty comment |
| ReviewForm.Wizard.constructor | frontend/src/pages/ReviewForm.tsx:27-29 | no questions, no drafts, step 0 |
| ReviewForm.Wizard.LoadQuestions | frontend/src/pages/ReviewForm.tsx:35-49 | the questions as received and a fresh array of blank drafts, one per question |
| ReviewForm.Wizard.HandleRatingChange | frontend/src/pages/ReviewForm.tsx:51-56 | with a question at the step, only that draft's rating changes, to `value[0]`; otherwise nothing changes |
| ReviewForm.Wizard.HandleCommentChange | frontend/src/pages/ReviewForm.tsx:58-63 | with a question at the step, only that draft's comment changes; otherwise nothing changes |
| ReviewForm.Wizard.Previous | frontend/src/pages/ReviewForm.tsx:137-141 | enabled only away from step 0; goes back one step and never below 0 |
| ReviewForm.Wizard.Next | frontend/src/pages/ReviewForm.tsx:145-148 | offered only before the last question; goes forward one step and stays on a question |
| ReviewForm.Wizard.Submit | frontend/src/pages/ReviewForm.tsx:145-153 | offered only at the last question; posts every draft, one per question in question order |
| ReviewForm.Wizard.Render | frontend/src/pages/ReviewForm.tsx:85-153 | only the loading text while there are no questions; otherwise the current question with its own draft, Previous enabled exactly away from step 0, and Submit instead of Next exactly at the last step |
| EmployeeDashboard.Point | frontend/src/pages/EmployeeDashboard.tsx:128-133 | subject is the category with `...` appended exactly when the question text is longer than 20 characters; Self is the self rating, 0 when there is none; PM is the average |
| EmployeeDashboard.ChartData | frontend/src/pages/EmployeeDashboard.tsx:128-133 | one chart point per report entry, in order |
| EmployeeDashboard.Dashboard.constructor | frontend/src/pages/EmployeeDashboard.tsx:32-35 | no cycle, no questions, no drafts |
| EmployeeDashboard.Dashboard.SetActiveCycle | frontend/src/pages/EmployeeDashboard.tsx:48-55 | only the active cycle changes |
| EmployeeDashboard.Dashboard.LoadQuestions | frontend/src/pages/EmployeeDashboard.tsx:66-80 | the questions as received and a fresh array of blank drafts, one per question |
| EmployeeDashboard.Dashboard.HandleRatingChange | frontend/src/pages/EmployeeDashboard.tsx:82-86 | only draft `index` changes, and only its rating, to `value[0]` |
| EmployeeDashboard.Dashboard.HandleCommentChange | frontend/src/pages/EmployeeDashboard.tsx:88-92 | only draft `index` changes, and only its comment |
| EmployeeDashboard.Dashboard.HandleSubmitAssessment | frontend/src/pages/EmployeeDashboard.tsx:94-97 | nothing is sent exactly when there is no active cycle; otherwise every draft is posted for that cycle, one per question in order |

## Left out

- HTTP and the controllers, axios calls, toasts and navigation: the services and handlers are called directly. `PmController.java` calls `getSubmittedReviews` and `getReviewWithClarifications`, which `PmReviewService` does not define; they are not modelled.
- Authentication, JWT and password encoding (`AuthController`): the acting user is a parameter.
- JPA machinery: repositories are tables of rows with increasing generated ids, and the effect of a transaction is committed all at once. Entity annotations, lazy loading and database constraints beyond the join columns are not modelled.
- Seeding (`AppraxisApplication.java`, `QuestionSeeder.java`): `Database.constructor` takes any users and questions.
- `getAllAppraisals` (`AppraisalService.java:39-41`) is a plain `findAll`. The `cycles` table is that list, so it has no member of its own.
- `EmployeeService.Report`: the PM average is the exact rational sum over count, not a `Double`; rounding is not modelled.
- `AppraisalCycle.bossComment` is not a field of the `AppraisalCycle.java` entity shown, yet `BossService.java:60` sets it. The model adds it as a plain field.
- `BossService.FinalizeAppraisal`: a null boss comment (and a null reply in `SubmitClarification`) is not modelled; comments are strings.
- `EmployeeService.UserName`, `EmployeeService.QuestionText`, `BossService.Designation`: Java would throw on a dangling reference. Consistency rules dangling references out, so the empty-string fallback is never reached from a consistent store.
- User.java, PmRating.java and ReviewStatus.java are not modelled directly; their fields are taken from their uses in the services. `User` (name, designation, role set with `hasRole` as membership), `PmRating` and the two review states are taken from their uses in the services.
- `SessionCodec.Parse` reads only the JSON that `Stringify` writes for a user object, plus `null`. Any other text is treated as a `JSON.parse` exception, including other valid JSON for such an object (white space, other key orders, `\u` escapes). `Stringify` escapes only `"` and `\`; control characters are not escaped.
- `AuthContext.AfterInit`: a stored user that `JSON.parse` rejects throws out of the effect. Nothing catches it and `App.tsx` has no error boundary, so React unmounts the whole tree and nothing is rendered. The model only records the state cells as they stand at the throw (`isLoading` still true, the token set); no guard decision is claimed for that state. A stored user text of `null` leaves a token with a null user. Both need storage written by something other than `login`.
- `AuthContext.AuthProvider`: React's scheduling of the state updates, re-renders and the `useAuth` hook outside a provider are not modelled. A thrown init leaves the token cell set, because the source calls `setToken` before `JSON.parse`.
- String lengths are counted in characters; JavaScript counts UTF-16 code units, which only differ outside the Basic Multilingual Plane (`EmployeeDashboard.Point`'s 20-character test).
- `ReviewForm.Wizard.HandleRatingChange`, `EmployeeDashboard.Dashboard.HandleRatingChange`: the slider always reports one value, so an empty `value` (which would store `undefined`) is excluded by a precondition.
- `ReviewForm.Wizard`, `EmployeeDashboard.Dashboard`: the source copies the array shallowly and mutates the shared draft object. The model updates the one array cell, which is the same observable change. The array's new identity after `setRatings` is not modelled.
- `ReviewForm`: the progress percentage (`ReviewForm.tsx:83`) is floating point and presentation only.
- React's unmounting of the tree after an uncaught error in an effect is not modelled; `AuthContext.AuthProvider.Initialize` only reports the throw in `threw`.
- Requests are modelled as running one at a time. `AppraisalService.InitiateAppraisal` (`AppraisalService.java:52-63`), `AppraisalService.AssignPm` (`AppraisalService.java:71-91`) and `EmployeeService.SubmitClarification` (`EmployeeService.java:149-157`) check for an existing row and then insert, with no transaction that would serialise them. Two concurrent requests could both pass the check and store duplicates, breaking the one-cycle-per-employee-and-year, one-review-per-cycle and one-clarification-per-rating rules; the single-result finders would then throw. The model does not capture that.
- `findAll`, `findByRole` and the derived finders have no `ORDER BY`, so SQL gives their rows in no fixed order. The model returns them in id (table) order, and every "in table order" above rests on that choice.
- Presentation-only pages (HR, boss and PM dashboards, layout, routes) are not modelled.
