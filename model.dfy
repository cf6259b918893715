/** Entities of the appraisal back-end: the JPA entities and enums of the
    `model` package, with every object reference replaced by the id of the
    referenced row (a foreign key), and the service errors as values. */
module Model {
  import opened Wrappers

  datatype Result<+T> = Ok(value: T) | Err(error: Error)

  /** Database identity of a row (`@GeneratedValue(strategy = IDENTITY)`). */
  type Id = nat

  /** `LocalDate`, as produced by the clock that the services read. */
  datatype Date = Date(year: nat, month: nat, day: nat)

  /** `LocalDateTime`; only stored, never inspected, so kept abstract. */
  type Timestamp = int

  datatype Role = Employee | ProjectManager | Hr | Boss

  datatype AppraisalStatus =
    | Open
    | PendingPmReview
    | PendingEmployeeClarification
    | PendingBossReview
    | Closed

  /** `Enum.name()` of an appraisal status. */
  function StatusName(s: AppraisalStatus): string {
    match s
    case Open => "OPEN"
    case PendingPmReview => "PENDING_PM_REVIEW"
    case PendingEmployeeClarification => "PENDING_EMPLOYEE_CLARIFICATION"
    case PendingBossReview => "PENDING_BOSS_REVIEW"
    case Closed => "CLOSED"
  }

  /** Status of a project manager's review; the services use exactly these two. */
  datatype ReviewStatus = Pending | Submitted

  /** A user account; `hasRole(r)` is `r in roles`. */
  datatype User = User(name: string, designation: string, roles: set<Role>)

  /** One appraisal of one employee for one year. `bossComment` is written by
      the boss's final review; `None` until then. */
  datatype AppraisalCycle = AppraisalCycle(
    employee: Id,
    hrInitiator: Id,
    startDate: Date,
    status: AppraisalStatus,
    year: string,
    bossComment: Option<string>)

  /** Assignment of a reviewer (a project manager) to a cycle. */
  datatype PmReview = PmReview(
    appraisalCycle: Id,
    reviewer: Id,
    status: ReviewStatus,
    feedbackDate: Option<Timestamp>)

  /** One rating given by a reviewer for one question; the comment may be null. */
  datatype PmRating = PmRating(pmReview: Id, question: Id, rating: int, comment: Option<string>)

  /** One answer of an employee's self-assessment. */
  datatype SelfAssessment = SelfAssessment(appraisalCycle: Id, question: Id, rating: int, comment: Option<string>)

  /** An employee's reply to one project manager rating. */
  datatype Clarification = Clarification(pmRating: Id, employeeReply: string, createdAt: Timestamp)

  datatype Question = Question(text: string, category: string, active: bool)

  /** A stored entity together with its id. */
  datatype Row<+T> = Row(id: Id, val: T)

  /** The `RuntimeException`s the services throw, one constructor per message. */
  datatype Error =
    | EmployeeNotFound
    | NotAnEmployee
    | AppraisalExists(year: string)
    | AppraisalCycleNotFound
    | CycleNotFound
    | NotOpen
    | PmNotFound
    | NotAProjectManager
    | ReviewNotFound
    | ReviewAlreadySubmitted
    | QuestionNotFound
    | AlreadyClosed
    | NotReadyForFinalReview(status: AppraisalStatus)
    | RatingNotFound
    | ClarificationAlreadySubmitted

  /** The exception message the service attaches to each error. */
  function Message(e: Error): string {
    match e
    case EmployeeNotFound => "Employee not found"
    case NotAnEmployee => "Can only initiate appraisal for employees"
    case AppraisalExists(y) => "An appraisal for this employee already exists for year " + y
    case AppraisalCycleNotFound => "Appraisal cycle not found"
    case CycleNotFound => "Cycle not found"
    case NotOpen => "Cannot assign PM. Appraisal is not in OPEN status."
    case PmNotFound => "PM not found"
    case NotAProjectManager => "Selected user is not a Project Manager"
    case ReviewNotFound => "Review not found"
    case ReviewAlreadySubmitted => "Review is already submitted"
    case QuestionNotFound => "Question not found"
    case AlreadyClosed => "Appraisal is already closed"
    case NotReadyForFinalReview(s) => "Appraisal is not ready for final review. Current status: " + StatusName(s)
    case RatingNotFound => "Rating not found"
    case ClarificationAlreadySubmitted => "Clarification already submitted"
  }
}
