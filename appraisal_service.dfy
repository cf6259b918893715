/** `AppraisalService`: HR's listings of employees and project managers,
    opening a cycle for an employee and year, and assigning its reviewer. */
module AppraisalService {
  import opened Wrappers
  import opened Model
  import opened Tables
  import opened Repositories

  /** The users HR can open an appraisal for: holders of EMPLOYEE who are not also BOSS. */
  function GetAllEmployees(users: seq<Row<User>>): (r: seq<Row<User>>)
    ensures forall i :: 0 <= i < |r| ==> r[i] in users && Employee in r[i].val.roles && Boss !in r[i].val.roles
    ensures forall i :: 0 <= i < |users| && Employee in users[i].val.roles && Boss !in users[i].val.roles ==> users[i] in r
    ensures IdsIncreasing(users) ==> IdsIncreasing(r)
  {
    var p := (u: Row<User>) => Employee in u.val.roles && Boss !in u.val.roles;
    assert IdsIncreasing(users) ==> IdsIncreasing(Select(users, p)) by {
      if IdsIncreasing(users) { SelectIncreasing(users, p); }
    }
    Select(users, p)
  }

  /** The holders of PROJECT_MANAGER. */
  function GetAllPms(users: seq<Row<User>>): (r: seq<Row<User>>)
    ensures forall i :: 0 <= i < |r| ==> r[i] in users && ProjectManager in r[i].val.roles
    ensures forall i :: 0 <= i < |users| && ProjectManager in users[i].val.roles ==> users[i] in r
    ensures IdsIncreasing(users) ==> IdsIncreasing(r)
  {
    var p := (u: Row<User>) => ProjectManager in u.val.roles;
    assert IdsIncreasing(users) ==> IdsIncreasing(Select(users, p)) by {
      if IdsIncreasing(users) { SelectIncreasing(users, p); }
    }
    Select(users, p)
  }

  /** Adding a new OPEN cycle for a stored employee whose (employee, year)
      pair is still free keeps the workflow consistent. */
  lemma InitiateKeepsConsistent(s: Store, c: AppraisalCycle)
    requires WellFormedStore(s) && Consistent(s)
    requires c.status == Open && c.bossComment == None && HasId(s.users, c.employee)
    requires FindByEmployeeAndYear(s.cycles, c.employee, c.year).None?
    ensures var s' := s.(cycles := s.cycles + [Row(s.nextCycleId, c)], nextCycleId := s.nextCycleId + 1);
      WellFormedStore(s') && Consistent(s')
  {
    var cycles' := s.cycles + [Row(s.nextCycleId, c)];
    var s' := s.(cycles := cycles', nextCycleId := s.nextCycleId + 1);
    AppendWellFormed(s.cycles, s.nextCycleId, c);
    forall k | 0 <= k < |s.reviews| ensures ReviewOk(s.users, cycles', s.reviews[k].val) {
      var id := s.reviews[k].val.appraisalCycle;
      assert ReviewOk(s.users, s.cycles, s.reviews[k].val);
      FindAppend(s.cycles, s.nextCycleId, c, id);
    }
    AppendKeepsIds(s.cycles, [Row(s.nextCycleId, c)]);
    SelfAssessmentsSurvive(s.selfAssessments, s.cycles, cycles', s.questions);
    assert UniqueEmployeeYear(cycles') by {
      forall i, j | 0 <= i < j < |cycles'| ensures !SameEmployeeAndYear(cycles'[i].val, cycles'[j].val) {
        if j == |s.cycles| {
          assert cycles'[i] == s.cycles[i];
        }
      }
    }
  }

  /** `initiateAppraisal(employeeId, year, initiator)` on the day `today`. */
  method InitiateAppraisal(db: Database, employeeId: Id, year: string, initiator: Id, today: Date)
    returns (r: Result<Row<AppraisalCycle>>)
    requires db.Valid()
    modifies db
    ensures db.Valid()
    ensures var u := Find(old(db.users), employeeId);
      && (u.None? ==> r == Err(EmployeeNotFound))
      && (u.Some? && Employee !in u.value.roles ==> r == Err(NotAnEmployee))
      && (u.Some? && Employee in u.value.roles && FindByEmployeeAndYear(old(db.cycles), employeeId, year).Some? ==>
            r == Err(AppraisalExists(year)))
      && (r.Ok? <==> u.Some? && Employee in u.value.roles && FindByEmployeeAndYear(old(db.cycles), employeeId, year).None?)
    ensures r.Err? ==> db.Snapshot() == old(db.Snapshot())
    ensures r.Ok? ==>
      && r.value == Row(old(db.nextCycleId), AppraisalCycle(employeeId, initiator, today, Open, year, None))
      && db.Snapshot() == old(db.Snapshot()).(cycles := old(db.cycles) + [r.value], nextCycleId := old(db.nextCycleId) + 1)
    ensures Advances(old(db.cycles), db.cycles)
  {
    var employee := Find(db.users, employeeId);
    if employee.None? {
      return Err(EmployeeNotFound);
    }
    if Employee !in employee.value.roles {
      return Err(NotAnEmployee);
    }
    if FindByEmployeeAndYear(db.cycles, employeeId, year).Some? {
      return Err(AppraisalExists(year));
    }
    var appraisal := AppraisalCycle(employeeId, initiator, today, Open, year, None);
    InitiateKeepsConsistent(db.Snapshot(), appraisal);
    r := Ok(Row(db.nextCycleId, appraisal));
    db.cycles := db.cycles + [r.value];
    db.nextCycleId := db.nextCycleId + 1;
  }

  /** Moving an OPEN cycle to PENDING_PM_REVIEW while adding its single
      PENDING review by a stored project manager keeps the workflow consistent. */
  lemma AssignKeepsConsistent(s: Store, cycleId: Id, pmId: Id)
    requires WellFormedStore(s) && Consistent(s)
    requires Find(s.cycles, cycleId).Some? && Find(s.cycles, cycleId).value.status == Open
    requires HasId(s.users, pmId)
    ensures var c := Find(s.cycles, cycleId).value;
      var s' := s.(cycles := Update(s.cycles, cycleId, c.(status := PendingPmReview)),
                   reviews := s.reviews + [Row(s.nextReviewId, PmReview(cycleId, pmId, Pending, None))],
                   nextReviewId := s.nextReviewId + 1);
      WellFormedStore(s') && Consistent(s')
  {
    var c := Find(s.cycles, cycleId).value;
    var cycles' := Update(s.cycles, cycleId, c.(status := PendingPmReview));
    var review := PmReview(cycleId, pmId, Pending, None);
    var reviews' := s.reviews + [Row(s.nextReviewId, review)];
    UpdateWellFormed(s.cycles, s.nextCycleId, cycleId, c.(status := PendingPmReview));
    AppendWellFormed(s.reviews, s.nextReviewId, review);
    OpenCycleHasNoReview(s, cycleId);
    ReviewAppendUnique(s.reviews, Row(s.nextReviewId, review));
    UpdateCycleOk(s.users, s.cycles, cycleId, c.(status := PendingPmReview));
    forall k | 0 <= k < |reviews'| ensures ReviewOk(s.users, cycles', reviews'[k].val) {
      FindUpdate(s.cycles, cycleId, c.(status := PendingPmReview), reviews'[k].val.appraisalCycle);
      if k < |s.reviews| {
        assert ReviewOk(s.users, s.cycles, s.reviews[k].val);
      }
    }
    forall k | 0 <= k < |s.ratings| ensures RatingOk(reviews', s.questions, s.ratings[k].val) {
      assert RatingOk(s.reviews, s.questions, s.ratings[k].val);
      FindAppend(s.reviews, s.nextReviewId, review, s.ratings[k].val.pmReview);
    }
    UpdateKeepsIds(s.cycles, cycleId, c.(status := PendingPmReview));
    SelfAssessmentsSurvive(s.selfAssessments, s.cycles, cycles', s.questions);
  }

  /** `assignPm(cycleId, pmId)`. Every check precedes the two writes. */
  method AssignPm(db: Database, cycleId: Id, pmId: Id) returns (r: Result<()>)
    requires db.Valid()
    modifies db
    ensures db.Valid()
    ensures var c, pm := Find(old(db.cycles), cycleId), Find(old(db.users), pmId);
      && (c.None? ==> r == Err(AppraisalCycleNotFound))
      && (c.Some? && c.value.status != Open ==> r == Err(NotOpen))
      && (c.Some? && c.value.status == Open && pm.None? ==> r == Err(PmNotFound))
      && (c.Some? && c.value.status == Open && pm.Some? && ProjectManager !in pm.value.roles ==> r == Err(NotAProjectManager))
      && (r.Ok? <==> c.Some? && c.value.status == Open && pm.Some? && ProjectManager in pm.value.roles)
    ensures r.Err? ==> db.Snapshot() == old(db.Snapshot())
    ensures r.Ok? ==>
      var c := Find(old(db.cycles), cycleId).value;
      db.Snapshot() == old(db.Snapshot()).(
        cycles := Update(old(db.cycles), cycleId, c.(status := PendingPmReview)),
        reviews := old(db.reviews) + [Row(old(db.nextReviewId), PmReview(cycleId, pmId, Pending, None))],
        nextReviewId := old(db.nextReviewId) + 1)
    ensures Advances(old(db.cycles), db.cycles)
  {
    var cycle := Find(db.cycles, cycleId);
    if cycle.None? {
      return Err(AppraisalCycleNotFound);
    }
    if cycle.value.status != Open {
      return Err(NotOpen);
    }
    var pm := Find(db.users, pmId);
    if pm.None? {
      return Err(PmNotFound);
    }
    if ProjectManager !in pm.value.roles {
      return Err(NotAProjectManager);
    }
    ghost var s := db.Snapshot();
    var updated := cycle.value.(status := PendingPmReview);
    AssignKeepsConsistent(s, cycleId, pmId);
    AdvanceByUpdate(s.cycles, cycleId, updated);
    db.reviews := db.reviews + [Row(db.nextReviewId, PmReview(cycleId, pmId, Pending, None))];
    db.nextReviewId := db.nextReviewId + 1;
    db.cycles := Update(db.cycles, cycleId, updated);
    assert db.Snapshot() == s.(cycles := Update(s.cycles, cycleId, updated),
                               reviews := s.reviews + [Row(s.nextReviewId, PmReview(cycleId, pmId, Pending, None))],
                               nextReviewId := s.nextReviewId + 1);
    r := Ok(());
  }

  /** Two assignments to the same cycle: once the first succeeds the cycle has
      left OPEN, so the second is refused and the cycle keeps its one review. */
  method AssignPmTwice(db: Database, cycleId: Id, firstPm: Id, secondPm: Id)
    returns (first: Result<()>, second: Result<()>)
    requires db.Valid()
    modifies db
    ensures db.Valid()
    ensures first.Ok? ==> second == Err(NotOpen)
  {
    first := AssignPm(db, cycleId, firstPm);
    if first.Ok? {
      FindUpdate(old(db.cycles), cycleId, Find(old(db.cycles), cycleId).value.(status := PendingPmReview), cycleId);
    }
    second := AssignPm(db, cycleId, secondPm);
  }
}
