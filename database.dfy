/** The database behind the services: one table per JPA repository, the id
    generators, the integrity the schema guarantees (`nullable = false` join
    columns) and the consistency of the appraisal workflow that every
    service operation keeps. */
module Repositories {
  import opened Wrappers
  import opened Model
  import opened Tables

  /** A snapshot of every repository, with the next id each generator hands out. */
  datatype Store = Store(
    users: seq<Row<User>>,
    cycles: seq<Row<AppraisalCycle>>,
    reviews: seq<Row<PmReview>>,
    ratings: seq<Row<PmRating>>,
    selfAssessments: seq<Row<SelfAssessment>>,
    clarifications: seq<Row<Clarification>>,
    questions: seq<Row<Question>>,
    nextCycleId: Id,
    nextReviewId: Id,
    nextRatingId: Id,
    nextSelfAssessmentId: Id,
    nextClarificationId: Id)

  /** Ids are unique and ordered, and below each generator's next value. */
  predicate WellFormedStore(s: Store) {
    && IdsIncreasing(s.users)
    && IdsIncreasing(s.questions)
    && WellFormed(s.cycles, s.nextCycleId)
    && WellFormed(s.reviews, s.nextReviewId)
    && WellFormed(s.ratings, s.nextRatingId)
    && WellFormed(s.selfAssessments, s.nextSelfAssessmentId)
    && WellFormed(s.clarifications, s.nextClarificationId)
  }

  /** A cycle never carries the declared but unused status
      PENDING_EMPLOYEE_CLARIFICATION, has a boss comment exactly when it is
      CLOSED, and belongs to a stored user. */
  predicate CycleOk(users: seq<Row<User>>, c: AppraisalCycle) {
    && c.status != PendingEmployeeClarification
    && (c.status == Closed <==> c.bossComment.Some?)
    && HasId(users, c.employee)
  }

  predicate SameEmployeeAndYear(a: AppraisalCycle, b: AppraisalCycle) {
    a.employee == b.employee && a.year == b.year
  }

  /** At most one cycle per (employee, year). */
  predicate UniqueEmployeeYear(cycles: seq<Row<AppraisalCycle>>) {
    forall i, j :: 0 <= i < j < |cycles| ==> !SameEmployeeAndYear(cycles[i].val, cycles[j].val)
  }

  /** A review belongs to a stored cycle and reviewer; while PENDING its cycle
      waits for the PM review, once SUBMITTED (and then it has a feedback
      date) its cycle waits for the boss or is closed. */
  predicate ReviewOk(users: seq<Row<User>>, cycles: seq<Row<AppraisalCycle>>, r: PmReview) {
    var c := Find(cycles, r.appraisalCycle);
    && c.Some?
    && HasId(users, r.reviewer)
    && (r.status == Pending ==> c.value.status == PendingPmReview)
    && (r.status == Submitted ==> c.value.status == PendingBossReview || c.value.status == Closed)
    && (r.status == Submitted <==> r.feedbackDate.Some?)
  }

  /** At most one review per cycle. */
  predicate UniqueReviewPerCycle(reviews: seq<Row<PmReview>>) {
    forall i, j :: 0 <= i < j < |reviews| ==> reviews[i].val.appraisalCycle != reviews[j].val.appraisalCycle
  }

  /** Ratings exist only for submitted reviews, and for stored questions. */
  predicate RatingOk(reviews: seq<Row<PmReview>>, questions: seq<Row<Question>>, r: PmRating) {
    var rv := Find(reviews, r.pmReview);
    rv.Some? && rv.value.status == Submitted && HasId(questions, r.question)
  }

  /** A self-assessment answer belongs to a stored cycle and a stored question. */
  predicate SelfAssessmentOk(cycles: seq<Row<AppraisalCycle>>, questions: seq<Row<Question>>, a: SelfAssessment) {
    HasId(cycles, a.appraisalCycle) && HasId(questions, a.question)
  }

  /** At most one clarification per rating. */
  predicate UniqueClarificationPerRating(cls: seq<Row<Clarification>>) {
    forall i, j :: 0 <= i < j < |cls| ==> cls[i].val.pmRating != cls[j].val.pmRating
  }

  /** The consistency of the appraisal workflow. */
  predicate Consistent(s: Store) {
    && (forall i :: 0 <= i < |s.cycles| ==> CycleOk(s.users, s.cycles[i].val))
    && UniqueEmployeeYear(s.cycles)
    && (forall i :: 0 <= i < |s.reviews| ==> ReviewOk(s.users, s.cycles, s.reviews[i].val))
    && UniqueReviewPerCycle(s.reviews)
    && (forall i :: 0 <= i < |s.ratings| ==> RatingOk(s.reviews, s.questions, s.ratings[i].val))
    && (forall i :: 0 <= i < |s.selfAssessments| ==> SelfAssessmentOk(s.cycles, s.questions, s.selfAssessments[i].val))
    && (forall i :: 0 <= i < |s.clarifications| ==> HasId(s.ratings, s.clarifications[i].val.pmRating))
    && UniqueClarificationPerRating(s.clarifications)
  }

  /** Position of a status on the workflow OPEN -> PENDING_PM_REVIEW ->
      PENDING_BOSS_REVIEW -> CLOSED. */
  function Rank(s: AppraisalStatus): nat {
    match s
    case Open => 0
    case PendingPmReview => 1
    case PendingEmployeeClarification => 2
    case PendingBossReview => 3
    case Closed => 4
  }

  /** Between two states, no cycle disappears or changes owner, initiator,
      start date or year, no status moves backwards, and a closed cycle does
      not change at all. */
  predicate Advances(before: seq<Row<AppraisalCycle>>, after: seq<Row<AppraisalCycle>>) {
    && |before| <= |after|
    && forall i :: 0 <= i < |before| ==>
         var b, a := before[i], after[i];
         && a.id == b.id
         && a.val.employee == b.val.employee && a.val.hrInitiator == b.val.hrInitiator
         && a.val.startDate == b.val.startDate && a.val.year == b.val.year
         && Rank(b.val.status) <= Rank(a.val.status)
         && (b.val.status == Closed ==> a == b)
  }

  /** `AppraisalRepository.findByEmployeeAndYear`. */
  function FindByEmployeeAndYear(cycles: seq<Row<AppraisalCycle>>, employee: Id, year: string): (r: Option<Row<AppraisalCycle>>)
    ensures r.Some? ==> r.value in cycles && r.value.val.employee == employee && r.value.val.year == year
    ensures r.None? ==> forall i :: 0 <= i < |cycles| ==> !(cycles[i].val.employee == employee && cycles[i].val.year == year)
  {
    First(cycles, (c: Row<AppraisalCycle>) => c.val.employee == employee && c.val.year == year)
  }

  /** `ClarificationRepository.findByPmRating`. */
  function FindByPmRating(cls: seq<Row<Clarification>>, rating: Id): (r: Option<Row<Clarification>>)
    ensures r.Some? ==> r.value in cls && r.value.val.pmRating == rating
    ensures r.None? ==> forall i :: 0 <= i < |cls| ==> cls[i].val.pmRating != rating
  {
    First(cls, (c: Row<Clarification>) => c.val.pmRating == rating)
  }

  /** The review stored under `reviewId` satisfies the review constraints, so its cycle exists. */
  lemma StoredReviewOk(s: Store, reviewId: Id)
    requires Consistent(s) && Find(s.reviews, reviewId).Some?
    ensures ReviewOk(s.users, s.cycles, Find(s.reviews, reviewId).value)
  {
    var i := IndexOf(s.reviews, reviewId).value;
    assert ReviewOk(s.users, s.cycles, s.reviews[i].val);
  }

  /** Self-assessments stay attached when no cycle id disappears. */
  lemma SelfAssessmentsSurvive(sa: seq<Row<SelfAssessment>>, cycles: seq<Row<AppraisalCycle>>,
                               cycles': seq<Row<AppraisalCycle>>, questions: seq<Row<Question>>)
    requires forall i :: 0 <= i < |sa| ==> SelfAssessmentOk(cycles, questions, sa[i].val)
    requires forall x :: HasId(cycles, x) ==> HasId(cycles', x)
    ensures forall i :: 0 <= i < |sa| ==> SelfAssessmentOk(cycles', questions, sa[i].val)
  {
  }

  /** Writing back a loaded cycle with the same owner and year, in a state
      the cycle constraints allow, keeps every cycle constraint. */
  lemma UpdateCycleOk(users: seq<Row<User>>, cycles: seq<Row<AppraisalCycle>>, id: Id, v: AppraisalCycle)
    requires IdsIncreasing(cycles) && Find(cycles, id).Some?
    requires forall i :: 0 <= i < |cycles| ==> CycleOk(users, cycles[i].val)
    requires UniqueEmployeeYear(cycles)
    requires CycleOk(users, v) && SameEmployeeAndYear(v, Find(cycles, id).value)
    ensures var cycles' := Update(cycles, id, v);
      && (forall i :: 0 <= i < |cycles'| ==> CycleOk(users, cycles'[i].val))
      && UniqueEmployeeYear(cycles')
  {
    var cycles' := Update(cycles, id, v);
    forall i | 0 <= i < |cycles'| ensures CycleOk(users, cycles'[i].val) {
      assert CycleOk(users, cycles[i].val);
    }
    forall i, j | 0 <= i < j < |cycles'| ensures !SameEmployeeAndYear(cycles'[i].val, cycles'[j].val) {
      if cycles[i].id == id { FindRow(cycles, i); }
      if cycles[j].id == id { FindRow(cycles, j); }
      assert !SameEmployeeAndYear(cycles[i].val, cycles[j].val);
    }
  }

  /** Writing back a loaded cycle with the same owner, initiator, start date
      and year and a status no lower than before, unless it was CLOSED, is an advance. */
  lemma AdvanceByUpdate(cycles: seq<Row<AppraisalCycle>>, id: Id, v: AppraisalCycle)
    requires IdsIncreasing(cycles) && Find(cycles, id).Some?
    requires var c := Find(cycles, id).value;
      && v.employee == c.employee && v.hrInitiator == c.hrInitiator
      && v.startDate == c.startDate && v.year == c.year
      && Rank(c.status) <= Rank(v.status) && c.status != Closed
    ensures Advances(cycles, Update(cycles, id, v))
  {
    forall i | 0 <= i < |cycles| && cycles[i].id == id ensures cycles[i].val == Find(cycles, id).value {
      FindRow(cycles, i);
    }
  }

  /** The shared database; each field is one repository's table. */
  class Database {
    var users: seq<Row<User>>
    var cycles: seq<Row<AppraisalCycle>>
    var reviews: seq<Row<PmReview>>
    var ratings: seq<Row<PmRating>>
    var selfAssessments: seq<Row<SelfAssessment>>
    var clarifications: seq<Row<Clarification>>
    var questions: seq<Row<Question>>
    var nextCycleId: Id
    var nextReviewId: Id
    var nextRatingId: Id
    var nextSelfAssessmentId: Id
    var nextClarificationId: Id

    function Snapshot(): Store
      reads this
    {
      Store(users, cycles, reviews, ratings, selfAssessments, clarifications, questions,
            nextCycleId, nextReviewId, nextRatingId, nextSelfAssessmentId, nextClarificationId)
    }

    predicate Valid()
      reads this
    {
      WellFormedStore(Snapshot()) && Consistent(Snapshot())
    }

    /** A freshly seeded database: the given accounts and questions, nothing else. */
    constructor (users: seq<Row<User>>, questions: seq<Row<Question>>)
      requires IdsIncreasing(users) && IdsIncreasing(questions)
      ensures Valid()
      ensures Snapshot() == Store(users, [], [], [], [], [], questions, 0, 0, 0, 0, 0)
    {
      this.users, this.questions := users, questions;
      cycles, reviews, ratings, selfAssessments, clarifications := [], [], [], [], [];
      nextCycleId, nextReviewId, nextRatingId, nextSelfAssessmentId, nextClarificationId := 0, 0, 0, 0, 0;
    }

    /** Writes a whole snapshot back (the commit of a transaction). */
    method Commit(s: Store)
      modifies this
      ensures Snapshot() == s
    {
      users, cycles, reviews, ratings, selfAssessments, clarifications, questions := s.users, s.cycles, s.reviews, s.ratings, s.selfAssessments, s.clarifications, s.questions;
      nextCycleId, nextReviewId, nextRatingId, nextSelfAssessmentId, nextClarificationId := s.nextCycleId, s.nextReviewId, s.nextRatingId, s.nextSelfAssessmentId, s.nextClarificationId;
    }
  }

  /** Consequences of consistency used by the services. */

  /** Appending a review of a cycle that has none keeps one review per cycle. */
  lemma ReviewAppendUnique(reviews: seq<Row<PmReview>>, r: Row<PmReview>)
    requires UniqueReviewPerCycle(reviews)
    requires forall k :: 0 <= k < |reviews| ==> reviews[k].val.appraisalCycle != r.val.appraisalCycle
    ensures UniqueReviewPerCycle(reviews + [r])
  {
    var reviews' := reviews + [r];
    forall i, j | 0 <= i < j < |reviews'| ensures reviews'[i].val.appraisalCycle != reviews'[j].val.appraisalCycle {
      assert reviews'[i] == reviews[i];
      if j < |reviews| {
        assert reviews'[j] == reviews[j];
      }
    }
  }

  /** An OPEN cycle has no review yet. */
  lemma OpenCycleHasNoReview(s: Store, cycleId: Id)
    requires Consistent(s)
    requires Find(s.cycles, cycleId).Some? && Find(s.cycles, cycleId).value.status == Open
    ensures forall k :: 0 <= k < |s.reviews| ==> s.reviews[k].val.appraisalCycle != cycleId
  {
    forall k | 0 <= k < |s.reviews| ensures s.reviews[k].val.appraisalCycle != cycleId {
      assert ReviewOk(s.users, s.cycles, s.reviews[k].val);
    }
  }
}
