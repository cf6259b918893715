/** `BossService`: the cycles awaiting the boss, the summary the boss reads
    (the employee's report and feedback, reused), and the final review that
    closes a cycle. */
module BossService {
  import opened Wrappers
  import opened Model
  import opened Tables
  import opened Repositories
  import EmployeeService

  /** `getPendingReviews()`: exactly the cycles in PENDING_BOSS_REVIEW, in table order. */
  function GetPendingReviews(cycles: seq<Row<AppraisalCycle>>): (r: seq<Row<AppraisalCycle>>)
    ensures forall i :: 0 <= i < |r| ==> r[i] in cycles && r[i].val.status == PendingBossReview
    ensures forall i :: 0 <= i < |cycles| && cycles[i].val.status == PendingBossReview ==> cycles[i] in r
    ensures IdsIncreasing(cycles) ==> IdsIncreasing(r)
  {
    var p := (c: Row<AppraisalCycle>) => c.val.status == PendingBossReview;
    assert IdsIncreasing(cycles) ==> IdsIncreasing(Select(cycles, p)) by {
      if IdsIncreasing(cycles) { SelectIncreasing(cycles, p); }
    }
    Select(cycles, p)
  }

  /** What the boss reads about one cycle (`BossSummaryDto`). */
  datatype BossSummary = BossSummary(
    cycleId: Id,
    employeeName: string,
    designation: string,
    status: string,
    reports: seq<EmployeeService.ReportEntry>,
    clarifications: seq<EmployeeService.FeedbackItem>)

  /** The employee's designation; every cycle names a stored user, so the
      empty fallback is never shown in a consistent store. */
  function Designation(users: seq<Row<User>>, id: Id): string {
    match Find(users, id)
    case None => ""
    case Some(u) => u.designation
  }

  /** `getSummary(cycleId)`: the cycle's owner and status with exactly the
      report and the feedback the employee is shown. */
  method GetSummary(db: Database, cycleId: Id) returns (r: Result<BossSummary>)
    ensures var c := Find(db.cycles, cycleId);
      && (c.None? ==> r == Err(CycleNotFound))
      && (c.Some? ==>
            && r.Ok? && r.value.cycleId == cycleId && r.value.status == StatusName(c.value.status)
            && r.value.employeeName == EmployeeService.UserName(db.users, c.value.employee)
            && r.value.designation == Designation(db.users, c.value.employee)
            && r.value.reports == EmployeeService.Report(db.Snapshot(), cycleId)
            && r.value.clarifications == EmployeeService.Feedback(db.Snapshot(), cycleId))
  {
    var cycle := Find(db.cycles, cycleId);
    if cycle.None? {
      return Err(CycleNotFound);
    }
    var reports := EmployeeService.GetReport(db, cycleId);
    var clarifications := EmployeeService.GetFeedback(db, cycleId);
    var c := cycle.value;
    return Ok(BossSummary(cycleId, EmployeeService.UserName(db.users, c.employee), Designation(db.users, c.employee),
                          StatusName(c.status), reports.value, clarifications.value));
  }

  /** The committed effect of the final review: the cycle gets the boss's
      comment and becomes CLOSED. */
  function FinalizeEffect(s: Store, cycleId: Id, comment: string): Store
    requires Find(s.cycles, cycleId).Some?
  {
    var c := Find(s.cycles, cycleId).value;
    s.(cycles := Update(s.cycles, cycleId, c.(bossComment := Some(comment), status := Closed)))
  }

  /** Closing a cycle that awaits the boss keeps the workflow consistent. */
  lemma FinalizeKeepsConsistent(s: Store, cycleId: Id, comment: string)
    requires WellFormedStore(s) && Consistent(s)
    requires Find(s.cycles, cycleId).Some? && Find(s.cycles, cycleId).value.status == PendingBossReview
    ensures var s' := FinalizeEffect(s, cycleId, comment);
      WellFormedStore(s') && Consistent(s') && Advances(s.cycles, s'.cycles)
  {
    var c := Find(s.cycles, cycleId).value;
    var c' := c.(bossComment := Some(comment), status := Closed);
    var cycles' := Update(s.cycles, cycleId, c');
    UpdateWellFormed(s.cycles, s.nextCycleId, cycleId, c');
    UpdateCycleOk(s.users, s.cycles, cycleId, c');
    forall k | 0 <= k < |s.reviews| ensures ReviewOk(s.users, cycles', s.reviews[k].val) {
      assert ReviewOk(s.users, s.cycles, s.reviews[k].val);
      FindUpdate(s.cycles, cycleId, c', s.reviews[k].val.appraisalCycle);
    }
    UpdateKeepsIds(s.cycles, cycleId, c');
    SelfAssessmentsSurvive(s.selfAssessments, s.cycles, cycles', s.questions);
    AdvanceByUpdate(s.cycles, cycleId, c');
  }

  /** `finalizeAppraisal(cycleId, bossComment)`. */
  method FinalizeAppraisal(db: Database, cycleId: Id, comment: string) returns (r: Result<()>)
    requires db.Valid()
    modifies db
    ensures db.Valid()
    ensures var c := Find(old(db.cycles), cycleId);
      && (c.None? ==> r == Err(CycleNotFound))
      && (c.Some? && c.value.status == Closed ==> r == Err(AlreadyClosed))
      && (c.Some? && c.value.status != Closed && c.value.status != PendingBossReview ==>
            r == Err(NotReadyForFinalReview(c.value.status)))
      && (r.Ok? <==> c.Some? && c.value.status == PendingBossReview)
    ensures r.Err? ==> db.Snapshot() == old(db.Snapshot())
    ensures r.Ok? ==> db.Snapshot() == FinalizeEffect(old(db.Snapshot()), cycleId, comment)
    ensures Advances(old(db.cycles), db.cycles)
  {
    var cycle := Find(db.cycles, cycleId);
    if cycle.None? {
      return Err(CycleNotFound);
    }
    if cycle.value.status == Closed {
      return Err(AlreadyClosed);
    }
    if cycle.value.status != PendingBossReview {
      return Err(NotReadyForFinalReview(cycle.value.status));
    }
    FinalizeKeepsConsistent(db.Snapshot(), cycleId, comment);
    db.cycles := Update(db.cycles, cycleId, cycle.value.(bossComment := Some(comment), status := Closed));
    r := Ok(());
  }

  /** A closed cycle cannot be closed again: the second final review is refused. */
  method FinalizeTwice(db: Database, cycleId: Id, first: string, second: string)
    returns (r1: Result<()>, r2: Result<()>)
    requires db.Valid()
    modifies db
    ensures db.Valid()
    ensures r1.Ok? ==> r2 == Err(AlreadyClosed)
  {
    r1 := FinalizeAppraisal(db, cycleId, first);
    if r1.Ok? {
      var c := Find(old(db.cycles), cycleId).value;
      FindUpdate(old(db.cycles), cycleId, c.(bossComment := Some(first), status := Closed), cycleId);
    }
    r2 := FinalizeAppraisal(db, cycleId, second);
  }
}
