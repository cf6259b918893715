/** `EmployeeService`: an employee's cycle for the current year, the report
    that sets the self-assessment beside the project managers' ratings, the
    feedback list with its clarifications, and the two submissions. */
module EmployeeService {
  import opened Wrappers
  import opened Model
  import opened Tables
  import opened Repositories
  import opened Decimal

  // ---------------------------------------------------------------- active cycle

  /** `getActiveCycle(employee)` on the day `today`: the cycle stored for the
      employee under the current year's numeral, or none (`null`). */
  function GetActiveCycle(cycles: seq<Row<AppraisalCycle>>, employee: Id, today: Date): (r: Option<Row<AppraisalCycle>>)
    ensures r.Some? ==> r.value in cycles && r.value.val.employee == employee && r.value.val.year == DecimalString(today.year)
    ensures r.None? ==> forall i :: 0 <= i < |cycles| ==>
              !(cycles[i].val.employee == employee && cycles[i].val.year == DecimalString(today.year))
  {
    FindByEmployeeAndYear(cycles, employee, DecimalString(today.year))
  }

  /** With one cycle per employee and year, a cycle opened for year `y` is the
      employee's active cycle exactly on the days of year `y`. */
  lemma ActiveCycleIsThisYears(cycles: seq<Row<AppraisalCycle>>, i: nat, y: nat, today: Date)
    requires UniqueEmployeeYear(cycles) && i < |cycles| && cycles[i].val.year == DecimalString(y)
    ensures GetActiveCycle(cycles, cycles[i].val.employee, today) == Some(cycles[i]) <==> today.year == y
  {
    var r := GetActiveCycle(cycles, cycles[i].val.employee, today);
    DecimalStringInjective(y, today.year);
    if today.year == y {
      var j :| 0 <= j < |cycles| && cycles[j] == r.value;
      if j != i {
        assert SameEmployeeAndYear(cycles[i].val, cycles[j].val);
        if i < j {} else {}
      }
    }
  }

  // ---------------------------------------------------------------- report

  /** One line of the report (`ReportDto`). The average is exact, not a `Double`. */
  datatype ReportEntry = ReportEntry(questionText: string, category: string, pmAverageRating: real, selfRating: Option<int>)

  function InCycle(cycleId: Id): Row<SelfAssessment> -> bool {
    (a: Row<SelfAssessment>) => a.val.appraisalCycle == cycleId
  }

  /** `findByAppraisalCycle(cycle)`. */
  function CycleSelfAssessments(sa: seq<Row<SelfAssessment>>, cycleId: Id): seq<Row<SelfAssessment>> {
    Select(sa, InCycle(cycleId))
  }

  /** The question-to-rating map after putting every answer in order: a later
      answer to the same question overwrites an earlier one. */
  function SelfRatings(rows: seq<Row<SelfAssessment>>): map<Id, int> {
    if |rows| == 0 then map[]
    else
      var last := rows[|rows| - 1];
      SelfRatings(rows[..|rows| - 1])[last.val.question := last.val.rating]
  }

  /** The reviews of the cycle that are SUBMITTED, in table order. */
  function SubmittedReviews(reviews: seq<Row<PmReview>>, cycleId: Id): seq<Row<PmReview>> {
    Select(reviews, SubmittedIn(cycleId))
  }

  function SubmittedIn(cycleId: Id): Row<PmReview> -> bool {
    (r: Row<PmReview>) => r.val.appraisalCycle == cycleId && r.val.status == Submitted
  }

  /** The ratings given in one review, in table order. */
  function RatingsOf(ratings: seq<Row<PmRating>>, reviewId: Id): seq<Row<PmRating>> {
    Select(ratings, OfReview(reviewId))
  }

  /** The ratings given in review `reviewId`. */
  function OfReview(reviewId: Id): Row<PmRating> -> bool {
    (r: Row<PmRating>) => r.val.pmReview == reviewId
  }

  /** The scores the given ratings give to question `q`, in order. */

  function ScoresIn(rs: seq<Row<PmRating>>, q: Id): seq<int> {
    if |rs| == 0 then []
    else
      var last := rs[|rs| - 1];
      ScoresIn(rs[..|rs| - 1], q) + (if last.val.question == q then [last.val.rating] else [])
  }

  /** The scores for question `q` collected review by review. */
  function PmScores(revs: seq<Row<PmReview>>, ratings: seq<Row<PmRating>>, q: Id): seq<int> {
    if |revs| == 0 then []
    else PmScores(revs[..|revs| - 1], ratings, q) + ScoresIn(RatingsOf(ratings, revs[|revs| - 1].id), q)
  }

  function Sum(xs: seq<int>): int {
    if |xs| == 0 then 0 else Sum(xs[..|xs| - 1]) + xs[|xs| - 1]
  }

  /** `IntStream.average().orElse(0.0)`, computed exactly. */
  function Average(xs: seq<int>): real {
    if |xs| == 0 then 0.0 else Sum(xs) as real / |xs| as real
  }

  /** The report of a cycle: one entry per stored question, in `findAll` order. */
  function Report(s: Store, cycleId: Id): (r: seq<ReportEntry>)
    ensures |r| == |s.questions|
    ensures forall k :: 0 <= k < |r| ==>
              r[k].questionText == s.questions[k].val.text && r[k].category == s.questions[k].val.category
  {
    var self := SelfRatings(CycleSelfAssessments(s.selfAssessments, cycleId));
    var revs := SubmittedReviews(s.reviews, cycleId);
    seq(|s.questions|, k requires 0 <= k < |s.questions| =>
      EntryOf(s.questions[k], self, PmScores(revs, s.ratings, s.questions[k].id)))
  }

  /** One report entry: the question's text and category, the average of its
      PM scores, and its self rating if the map has one. */
  function EntryOf(q: Row<Question>, self: map<Id, int>, scores: seq<int>): ReportEntry {
    ReportEntry(q.val.text, q.val.category, Average(scores), if q.id in self then Some(self[q.id]) else None)
  }

  /** `getOrDefault(q, new ArrayList<>())` on the score lists. */
  function ScoresFor(m: map<Id, seq<int>>, q: Id): seq<int> {
    if q in m then m[q] else []
  }

  /** The loop filling `selfRatingsMap`. */
  method CollectSelfRatings(selfAssessments: seq<Row<SelfAssessment>>) returns (m: map<Id, int>)
    ensures m == SelfRatings(selfAssessments)
  {
    m := map[];
    var i := 0;
    while i < |selfAssessments|
      invariant 0 <= i <= |selfAssessments|
      invariant m == SelfRatings(selfAssessments[..i])
    {
      assert selfAssessments[..i + 1][..i] == selfAssessments[..i];
      m := m[selfAssessments[i].val.question := selfAssessments[i].val.rating];
      i := i + 1;
    }
    assert selfAssessments[..i] == selfAssessments;
  }

  /** The inner loop over one review's ratings: each score is added to the
      list of its question (`computeIfAbsent(...).add(...)`). */
  method AddScores(m0: map<Id, seq<int>>, ratings: seq<Row<PmRating>>) returns (m: map<Id, seq<int>>)
    ensures forall q :: ScoresFor(m, q) == ScoresFor(m0, q) + ScoresIn(ratings, q)
  {
    m := m0;
    var j := 0;
    while j < |ratings|
      invariant 0 <= j <= |ratings|
      invariant forall q :: ScoresFor(m, q) == ScoresFor(m0, q) + ScoresIn(ratings[..j], q)
    {
      assert ratings[..j + 1] == ratings[..j] + [ratings[j]];
      AddScoreStep(m0, m, ratings[..j], ratings[j]);
      m := m[ratings[j].val.question := ScoresFor(m, ratings[j].val.question) + [ratings[j].val.rating]];
      j := j + 1;
    }
    assert ratings[..j] == ratings;
  }

  /** Adding one rating's score to the list of its question. */
  lemma AddScoreStep(m0: map<Id, seq<int>>, m: map<Id, seq<int>>, rs: seq<Row<PmRating>>, x: Row<PmRating>)
    requires forall q :: ScoresFor(m, q) == ScoresFor(m0, q) + ScoresIn(rs, q)
    ensures var m' := m[x.val.question := ScoresFor(m, x.val.question) + [x.val.rating]];
      forall q :: ScoresFor(m', q) == ScoresFor(m0, q) + ScoresIn(rs + [x], q)
  {
    var m' := m[x.val.question := ScoresFor(m, x.val.question) + [x.val.rating]];
    forall q ensures ScoresFor(m', q) == ScoresFor(m0, q) + ScoresIn(rs + [x], q) {
      ScoresInSnoc(rs, x, q);
      if q == x.val.question {
        assert ScoresFor(m', q) == (ScoresFor(m0, q) + ScoresIn(rs, q)) + [x.val.rating];
      } else {
        assert ScoresFor(m', q) == ScoresFor(m, q);
        assert ScoresIn(rs, q) + [] == ScoresIn(rs, q);
      }
    }
  }

  /** The outer loop filling `pmRatingsMap`, review by review. */
  method CollectPmScores(cycleReviews: seq<Row<PmReview>>, allRatings: seq<Row<PmRating>>) returns (m: map<Id, seq<int>>)
    ensures forall q :: ScoresFor(m, q) == PmScores(cycleReviews, allRatings, q)
  {
    m := map[];
    var i := 0;
    while i < |cycleReviews|
      invariant 0 <= i <= |cycleReviews|
      invariant forall q :: ScoresFor(m, q) == PmScores(cycleReviews[..i], allRatings, q)
    {
      assert cycleReviews[..i + 1][..i] == cycleReviews[..i];
      m := AddScores(m, RatingsOf(allRatings, cycleReviews[i].id));
      i := i + 1;
    }
    assert cycleReviews[..i] == cycleReviews;
  }

  /** The loop over `questionRepository.findAll()` building the entries. */
  method BuildReport(questions: seq<Row<Question>>, self: map<Id, int>, pm: map<Id, seq<int>>)
    returns (report: seq<ReportEntry>)
    ensures |report| == |questions|
    ensures forall k :: 0 <= k < |questions| ==> report[k] == EntryOf(questions[k], self, ScoresFor(pm, questions[k].id))
  {
    report := [];
    var k := 0;
    while k < |questions|
      invariant 0 <= k <= |questions| && |report| == k
      invariant forall i :: 0 <= i < k ==> report[i] == EntryOf(questions[i], self, ScoresFor(pm, questions[i].id))
    {
      var q := questions[k];
      var selfRating := if q.id in self then Some(self[q.id]) else None;
      var avg := Average(ScoresFor(pm, q.id));
      report := report + [ReportEntry(q.val.text, q.val.category, avg, selfRating)];
      k := k + 1;
    }
  }

  /** Entries built from the collected maps are the report. */
  lemma ReportFromMaps(s: Store, c: Id, self: map<Id, int>, pm: map<Id, seq<int>>, report: seq<ReportEntry>)
    requires self == SelfRatings(CycleSelfAssessments(s.selfAssessments, c))
    requires forall q :: ScoresFor(pm, q) == PmScores(SubmittedReviews(s.reviews, c), s.ratings, q)
    requires |report| == |s.questions|
    requires forall k :: 0 <= k < |s.questions| ==> report[k] == EntryOf(s.questions[k], self, ScoresFor(pm, s.questions[k].id))
    ensures report == Report(s, c)
  {
  }

  /** `getReport(cycleId)`. */
  method GetReport(db: Database, cycleId: Id) returns (r: Result<seq<ReportEntry>>)
    ensures r == if HasId(db.cycles, cycleId) then Ok(Report(db.Snapshot(), cycleId)) else Err(CycleNotFound)
  {
    var cycle := Find(db.cycles, cycleId);
    if cycle.None? {
      return Err(CycleNotFound);
    }
    var selfRatingsMap := CollectSelfRatings(CycleSelfAssessments(db.selfAssessments, cycleId));
    var pmRatingsMap := CollectPmScores(SubmittedReviews(db.reviews, cycleId), db.ratings);
    var report := BuildReport(db.questions, selfRatingsMap, pmRatingsMap);
    ReportFromMaps(db.Snapshot(), cycleId, selfRatingsMap, pmRatingsMap, report);
    return Ok(report);
  }

  // ---------------------------------------------------------------- report properties

  /** A cycle's self-ratings after one more stored answer. */
  lemma CycleSelfRatingsStep(sa: seq<Row<SelfAssessment>>, c: Id)
    requires |sa| > 0
    ensures var last := sa[|sa| - 1];
      SelfRatings(CycleSelfAssessments(sa, c)) ==
        if last.val.appraisalCycle == c
        then SelfRatings(CycleSelfAssessments(sa[..|sa| - 1], c))[last.val.question := last.val.rating]
        else SelfRatings(CycleSelfAssessments(sa[..|sa| - 1], c))
  {
    var p := InCycle(c);
    var prefix, last := sa[..|sa| - 1], sa[|sa| - 1];
    assert sa == prefix + [last];
    SelectAppend(prefix, last, p);
    if p(last) {
      var rows := Select(prefix, p) + [last];
      assert CycleSelfAssessments(sa, c) == rows;
      assert rows[..|rows| - 1] == Select(prefix, p);
    } else {
      assert CycleSelfAssessments(sa, c) == Select(prefix, p);
    }
  }

  /** The report shows a self-rating for a question exactly when the
      employee answered that question in this cycle. */
  lemma {:induction false} SelfRatingPresent(sa: seq<Row<SelfAssessment>>, c: Id, q: Id)
    ensures q in SelfRatings(CycleSelfAssessments(sa, c)) <==>
            exists i :: 0 <= i < |sa| && sa[i].val.appraisalCycle == c && sa[i].val.question == q
  {
    if |sa| > 0 {
      CycleSelfRatingsStep(sa, c);
      SelfRatingPresent(sa[..|sa| - 1], c, q);
      if exists i :: 0 <= i < |sa| && sa[i].val.appraisalCycle == c && sa[i].val.question == q {
        var i :| 0 <= i < |sa| && sa[i].val.appraisalCycle == c && sa[i].val.question == q;
        if i < |sa| - 1 {
          assert sa[..|sa| - 1][i] == sa[i];
        }
      }
    }
  }

  /** The self-rating shown is that of the employee's last answer to the
      question in this cycle: a resubmission overwrites. */
  lemma {:induction false} SelfRatingIsLatest(sa: seq<Row<SelfAssessment>>, c: Id, i: nat)
    requires i < |sa| && sa[i].val.appraisalCycle == c
    requires forall j :: i < j < |sa| ==> !(sa[j].val.appraisalCycle == c && sa[j].val.question == sa[i].val.question)
    ensures var self := SelfRatings(CycleSelfAssessments(sa, c));
      sa[i].val.question in self && self[sa[i].val.question] == sa[i].val.rating
  {
    CycleSelfRatingsStep(sa, c);
    if i < |sa| - 1 {
      SelfRatingIsLatest(sa[..|sa| - 1], c, i);
    }
  }

  /** The scores for `q` in a list of ratings are the ratings of `q` in it. */
  lemma {:induction false} ScoresInMembers(rs: seq<Row<PmRating>>, q: Id, x: int)
    ensures x in ScoresIn(rs, q) <==> exists j :: 0 <= j < |rs| && rs[j].val.question == q && rs[j].val.rating == x
  {
    if |rs| > 0 {
      ScoresInMembers(rs[..|rs| - 1], q, x);
      if exists j :: 0 <= j < |rs| && rs[j].val.question == q && rs[j].val.rating == x {
        var j :| 0 <= j < |rs| && rs[j].val.question == q && rs[j].val.rating == x;
        if j < |rs| - 1 {
          assert rs[..|rs| - 1][j] == rs[j];
        }
      }
    }
  }

  /** A rating row given in one of the listed reviews, for question `q`, with score `x`. */
  predicate RatedIn(revs: seq<Row<PmReview>>, rt: Row<PmRating>, q: Id, x: int) {
    rt.val.question == q && rt.val.rating == x && exists i :: 0 <= i < |revs| && revs[i].id == rt.val.pmReview
  }

  /** The collected scores for `q` are the scores of the ratings of `q`
      given in the listed reviews. */
  lemma {:induction false} PmScoresMembers(revs: seq<Row<PmReview>>, ratings: seq<Row<PmRating>>, q: Id, x: int)
    ensures x in PmScores(revs, ratings, q) <==> exists j :: 0 <= j < |ratings| && RatedIn(revs, ratings[j], q, x)
  {
    if |revs| > 0 {
      var prefix, last := revs[..|revs| - 1], revs[|revs| - 1];
      var rs := RatingsOf(ratings, last.id);
      PmScoresMembers(prefix, ratings, q, x);
      ScoresInMembers(rs, q, x);
      assert PmScores(revs, ratings, q) == PmScores(prefix, ratings, q) + ScoresIn(rs, q);
      if x in PmScores(revs, ratings, q) {
        if x in PmScores(prefix, ratings, q) {
          var j :| 0 <= j < |ratings| && RatedIn(prefix, ratings[j], q, x);
          var i :| 0 <= i < |prefix| && prefix[i].id == ratings[j].val.pmReview;
          assert revs[i] == prefix[i];
        } else {
          var k :| 0 <= k < |rs| && rs[k].val.question == q && rs[k].val.rating == x;
          var j :| 0 <= j < |ratings| && ratings[j] == rs[k];
          assert revs[|revs| - 1].id == ratings[j].val.pmReview;
        }
      }
      if exists j :: 0 <= j < |ratings| && RatedIn(revs, ratings[j], q, x) {
        var j :| 0 <= j < |ratings| && RatedIn(revs, ratings[j], q, x);
        var i :| 0 <= i < |revs| && revs[i].id == ratings[j].val.pmReview;
        if i < |revs| - 1 {
          assert prefix[i] == revs[i];
          assert RatedIn(prefix, ratings[j], q, x);
        } else {
          assert ratings[j] in rs;
          var k :| 0 <= k < |rs| && rs[k] == ratings[j];
        }
      }
    }
  }

  /** A rating row of question `q` with score `x`, given in a SUBMITTED review of cycle `c`. */
  predicate CountsFor(s: Store, c: Id, rt: Row<PmRating>, q: Id, x: int) {
    && rt.val.question == q && rt.val.rating == x
    && exists i :: 0 <= i < |s.reviews| && s.reviews[i].id == rt.val.pmReview &&
         s.reviews[i].val.appraisalCycle == c && s.reviews[i].val.status == Submitted
  }

  lemma RatedInSubmitted(s: Store, c: Id, rt: Row<PmRating>, q: Id, x: int)
    ensures RatedIn(SubmittedReviews(s.reviews, c), rt, q, x) <==> CountsFor(s, c, rt, q, x)
  {
    var revs := SubmittedReviews(s.reviews, c);
    if RatedIn(revs, rt, q, x) {
      var i' :| 0 <= i' < |revs| && revs[i'].id == rt.val.pmReview;
      assert revs[i'] in s.reviews;
      var i :| 0 <= i < |s.reviews| && s.reviews[i] == revs[i'];
    }
    if CountsFor(s, c, rt, q, x) {
      var i :| 0 <= i < |s.reviews| && s.reviews[i].id == rt.val.pmReview &&
         s.reviews[i].val.appraisalCycle == c && s.reviews[i].val.status == Submitted;
      assert s.reviews[i] in revs;
      var i' :| 0 <= i' < |revs| && revs[i'] == s.reviews[i];
    }
  }

  /** The report's average for question `k` is taken over exactly the
      ratings of that question in the cycle's SUBMITTED reviews. */
  lemma PmAverageSources(s: Store, c: Id, k: nat, x: int)
    requires k < |s.questions|
    ensures x in PmScores(SubmittedReviews(s.reviews, c), s.ratings, s.questions[k].id) <==>
            exists j :: 0 <= j < |s.ratings| && CountsFor(s, c, s.ratings[j], s.questions[k].id, x)
  {
    var q := s.questions[k].id;
    PmScoresMembers(SubmittedReviews(s.reviews, c), s.ratings, q, x);
    forall j | 0 <= j < |s.ratings|
      ensures RatedIn(SubmittedReviews(s.reviews, c), s.ratings[j], q, x) <==> CountsFor(s, c, s.ratings[j], q, x)
    {
      RatedInSubmitted(s, c, s.ratings[j], q, x);
    }
  }

  /** The ratings given in one of the listed reviews. */
  function InReviews(revs: seq<Row<PmReview>>): Row<PmRating> -> bool {
    (rt: Row<PmRating>) => exists i :: 0 <= i < |revs| && revs[i].id == rt.val.pmReview
  }

  /** The ratings the report counts for cycle `c`: those given in one of its
      SUBMITTED reviews. */
  function CountedIn(reviews: seq<Row<PmReview>>, c: Id): Row<PmRating> -> bool {
    (rt: Row<PmRating>) => exists i :: 0 <= i < |reviews| && reviews[i].id == rt.val.pmReview &&
                             reviews[i].val.appraisalCycle == c && reviews[i].val.status == Submitted
  }

  lemma {:induction false} SumAppend(a: seq<int>, b: seq<int>)
    ensures Sum(a + b) == Sum(a) + Sum(b)
    decreases |b|
  {
    if |b| == 0 {
      assert a + b == a;
    } else {
      assert (a + b)[..|a + b| - 1] == a + b[..|b| - 1];
      SumAppend(a, b[..|b| - 1]);
    }
  }

  lemma ScoresInSnoc(rs: seq<Row<PmRating>>, x: Row<PmRating>, q: Id)
    ensures ScoresIn(rs + [x], q) == ScoresIn(rs, q) + (if x.val.question == q then [x.val.rating] else [])
  {
    assert (rs + [x])[..|rs|] == rs;
  }

  /** `a` holds the scores of `a1` and of `a2`, each as often, and their sum. */
  predicate IsSplit(a: seq<int>, a1: seq<int>, a2: seq<int>) {
    multiset(a) == multiset(a1) + multiset(a2) && Sum(a) == Sum(a1) + Sum(a2)
  }

  /** Adding the same scores to `a` and to at most one of its parts keeps it
      a split. */
  lemma SplitStep(a: seq<int>, a1: seq<int>, a2: seq<int>, z: seq<int>, b1: bool, b2: bool)
    requires IsSplit(a, a1, a2) && !(b1 && b2)
    ensures IsSplit(a + (if b1 || b2 then z else []), a1 + (if b1 then z else []), a2 + (if b2 then z else []))
  {
    SumAppend(a, z);
    SumAppend(a1, z);
    SumAppend(a2, z);
    assert a + [] == a && a1 + [] == a1 && a2 + [] == a2;
  }

  /** The scores selected by `p` from a table with one more row at the end. */
  lemma SelectedScoresSnoc(t: seq<Row<PmRating>>, x: Row<PmRating>, p: Row<PmRating> -> bool, q: Id)
    ensures ScoresIn(Select(t + [x], p), q) ==
            ScoresIn(Select(t, p), q) + (if p(x) then ScoresIn([x], q) else [])
  {
    SelectAppend(t, x, p);
    var z := if x.val.question == q then [x.val.rating] else [];
    assert ScoresIn([x], q) == z by {
      assert [x][..0] == [];
    }
    if p(x) {
      var sel := Select(t, p);
      assert Select(t + [x], p) == sel + [x];
      ScoresInSnoc(sel, x, q);
    } else {
      assert Select(t + [x], p) == Select(t, p) + [] == Select(t, p);
    }
  }

  /** Selecting by either of two disjoint predicates collects the scores of
      both selections: the same scores, each as often, with the same sum. */
  lemma {:induction false} SplitScores(t: seq<Row<PmRating>>, p: Row<PmRating> -> bool,
                                       p1: Row<PmRating> -> bool, p2: Row<PmRating> -> bool, q: Id)
    requires forall x :: p(x) == (p1(x) || p2(x))
    requires forall x :: !(p1(x) && p2(x))
    ensures IsSplit(ScoresIn(Select(t, p), q), ScoresIn(Select(t, p1), q), ScoresIn(Select(t, p2), q))
  {
    if |t| > 0 {
      var t', x := t[..|t| - 1], t[|t| - 1];
      assert t == t' + [x];
      SplitScores(t', p, p1, p2, q);
      SelectedScoresSnoc(t', x, p, q);
      SelectedScoresSnoc(t', x, p1, q);
      SelectedScoresSnoc(t', x, p2, q);
      assert p(x) == (p1(x) || p2(x)) && !(p1(x) && p2(x));
      SplitStep(ScoresIn(Select(t', p), q), ScoresIn(Select(t', p1), q), ScoresIn(Select(t', p2), q),
                ScoresIn([x], q), p1(x), p2(x));
    }
  }

  /** Collecting review by review gives the scores of the listed reviews'
      ratings in table order, each as often and with the same sum: no
      rating is dropped or counted twice. */
  lemma {:induction false} PmScoresAsSelection(revs: seq<Row<PmReview>>, ratings: seq<Row<PmRating>>, q: Id)
    requires IdsIncreasing(revs)
    ensures var a, b := PmScores(revs, ratings, q), ScoresIn(Select(ratings, InReviews(revs)), q);
      multiset(a) == multiset(b) && Sum(a) == Sum(b)
  {
    if |revs| == 0 {
      SelectNone(ratings, InReviews(revs));
    } else {
      var prefix, last := revs[..|revs| - 1], revs[|revs| - 1];
      assert IdsIncreasing(prefix) by {
        forall i, j | 0 <= i < j < |prefix| ensures prefix[i].id < prefix[j].id {
          assert prefix[i] == revs[i] && prefix[j] == revs[j];
        }
      }
      PmScoresAsSelection(prefix, ratings, q);
      forall x ensures InReviews(revs)(x) == (InReviews(prefix)(x) || OfReview(last.id)(x)) {
        if InReviews(revs)(x) {
          var i :| 0 <= i < |revs| && revs[i].id == x.val.pmReview;
          if i < |revs| - 1 {
            assert prefix[i] == revs[i];
          }
        }
        if InReviews(prefix)(x) {
          var i :| 0 <= i < |prefix| && prefix[i].id == x.val.pmReview;
          assert revs[i] == prefix[i];
        }
      }
      forall x ensures !(InReviews(prefix)(x) && OfReview(last.id)(x)) {
        if InReviews(prefix)(x) {
          var i :| 0 <= i < |prefix| && prefix[i].id == x.val.pmReview;
          assert revs[i] == prefix[i] && revs[i].id < last.id;
        }
      }
      SplitScores(ratings, InReviews(revs), InReviews(prefix), OfReview(last.id), q);
      SumAppend(PmScores(prefix, ratings, q), ScoresIn(RatingsOf(ratings, last.id), q));
    }
  }

  /** The report's average for question `k` is the average of exactly the
      scores of that question's ratings in the cycle's SUBMITTED reviews,
      each counted once, in table order. */
  lemma ReportAverageOverCounted(s: Store, c: Id, k: nat)
    requires WellFormedStore(s) && k < |s.questions|
    ensures var q := s.questions[k].id;
      var counted := ScoresIn(Select(s.ratings, CountedIn(s.reviews, c)), q);
      && multiset(PmScores(SubmittedReviews(s.reviews, c), s.ratings, q)) == multiset(counted)
      && Report(s, c)[k].pmAverageRating == Average(counted)
  {
    var q := s.questions[k].id;
    var revs := SubmittedReviews(s.reviews, c);
    SelectIncreasing(s.reviews, SubmittedIn(c));
    PmScoresAsSelection(revs, s.ratings, q);
    forall x ensures InReviews(revs)(x) == CountedIn(s.reviews, c)(x) {
      RatedInSubmitted(s, c, x, x.val.question, x.val.rating);
    }
    SelectSame(s.ratings, InReviews(revs), CountedIn(s.reviews, c));
    var a, b := PmScores(revs, s.ratings, q), ScoresIn(Select(s.ratings, CountedIn(s.reviews, c)), q);
    assert |a| == |multiset(a)| == |multiset(b)| == |b|;
  }

  /** Until a review of the cycle is submitted, every average is 0.0. */
  lemma AveragesZeroBeforeSubmission(s: Store, c: Id)
    requires forall i :: 0 <= i < |s.reviews| ==> !(s.reviews[i].val.appraisalCycle == c && s.reviews[i].val.status == Submitted)
    ensures forall k :: 0 <= k < |s.questions| ==> Report(s, c)[k].pmAverageRating == 0.0
  {
    SelectNone(s.reviews, SubmittedIn(c));
  }

  lemma {:induction false} SumWithin(xs: seq<int>, lo: int, hi: int)
    requires forall i :: 0 <= i < |xs| ==> lo <= xs[i] <= hi
    ensures |xs| * lo <= Sum(xs) <= |xs| * hi
  {
    if |xs| > 0 {
      var n := |xs| - 1;
      SumWithin(xs[..n], lo, hi);
      assert xs[..n][..n - 0] == xs[..n];
      assert (n + 1) * lo == n * lo + lo && (n + 1) * hi == n * hi + hi;
    }
  }

  /** An average of scores between `lo` and `hi` lies between them. */
  lemma AverageWithin(xs: seq<int>, lo: int, hi: int)
    requires |xs| > 0 && forall i :: 0 <= i < |xs| ==> lo <= xs[i] <= hi
    ensures lo as real <= Average(xs) <= hi as real
  {
    SumWithin(xs, lo, hi);
    var n := |xs| as real;
    var a := Average(xs);
    assert a * n == Sum(xs) as real;
    assert (lo as real) * n <= a * n <= (hi as real) * n;
  }

  /** When some rating counts for question `k`, its average lies within
      any bounds of the ratings that count for it. */
  lemma ReportAverageWithin(s: Store, c: Id, k: nat, lo: int, hi: int)
    requires k < |s.questions|
    requires exists j, x :: 0 <= j < |s.ratings| && CountsFor(s, c, s.ratings[j], s.questions[k].id, x)
    requires forall j, x :: 0 <= j < |s.ratings| && CountsFor(s, c, s.ratings[j], s.questions[k].id, x) ==> lo <= x <= hi
    ensures lo as real <= Report(s, c)[k].pmAverageRating <= hi as real
  {
    var xs := PmScores(SubmittedReviews(s.reviews, c), s.ratings, s.questions[k].id);
    var j, x :| 0 <= j < |s.ratings| && CountsFor(s, c, s.ratings[j], s.questions[k].id, x);
    PmAverageSources(s, c, k, x);
    forall i | 0 <= i < |xs| ensures lo <= xs[i] <= hi {
      PmAverageSources(s, c, k, xs[i]);
    }
    AverageWithin(xs, lo, hi);
  }

  /** When no rating counts for question `k`, its average is 0.0. */
  lemma ReportAverageZero(s: Store, c: Id, k: nat)
    requires k < |s.questions|
    requires forall j, x :: 0 <= j < |s.ratings| ==> !CountsFor(s, c, s.ratings[j], s.questions[k].id, x)
    ensures Report(s, c)[k].pmAverageRating == 0.0
  {
    var xs := PmScores(SubmittedReviews(s.reviews, c), s.ratings, s.questions[k].id);
    if |xs| > 0 {
      PmAverageSources(s, c, k, xs[0]);
      assert false;
    }
  }

  /** A report entry has a self rating exactly when the cycle holds an
      answer to its question. */
  lemma ReportSelfRatingPresent(s: Store, c: Id, k: nat)
    requires k < |s.questions|
    ensures Report(s, c)[k].selfRating.Some? <==>
            exists i :: 0 <= i < |s.selfAssessments| && s.selfAssessments[i].val.appraisalCycle == c &&
                        s.selfAssessments[i].val.question == s.questions[k].id
  {
    SelfRatingPresent(s.selfAssessments, c, s.questions[k].id);
  }

  /** The self rating shown is that of the cycle's last answer to the question. */
  lemma ReportSelfRatingIsLatest(s: Store, c: Id, k: nat, i: nat)
    requires k < |s.questions| && i < |s.selfAssessments|
    requires s.selfAssessments[i].val.appraisalCycle == c && s.selfAssessments[i].val.question == s.questions[k].id
    requires forall j :: i < j < |s.selfAssessments| ==>
               !(s.selfAssessments[j].val.appraisalCycle == c && s.selfAssessments[j].val.question == s.questions[k].id)
    ensures Report(s, c)[k].selfRating == Some(s.selfAssessments[i].val.rating)
  {
    SelfRatingIsLatest(s.selfAssessments, c, i);
  }

  // ---------------------------------------------------------------- feedback

  /** One commented rating with its clarification (`FeedbackViewDto`). */
  datatype FeedbackItem = FeedbackItem(
    pmRatingId: Id,
    questionText: string,
    pmName: string,
    rating: int,
    comment: string,
    existingClarification: Option<string>)

  /** The rating carries a comment that is neither null nor empty. */
  predicate Commented(rt: Row<PmRating>) {
    rt.val.comment.Some? && rt.val.comment.value != ""
  }

  /** `findByPmRating(rating).map(Clarification::getEmployeeReply).orElse(null)`. */
  function ReplyTo(cls: seq<Row<Clarification>>, ratingId: Id): (r: Option<string>)
    ensures r.None? <==> forall i :: 0 <= i < |cls| ==> cls[i].val.pmRating != ratingId
    ensures r.Some? ==> exists i :: 0 <= i < |cls| && cls[i].val.pmRating == ratingId && cls[i].val.employeeReply == r.value
  {
    match FindByPmRating(cls, ratingId)
    case None => None
    case Some(c) => Some(c.val.employeeReply)
  }

  /** The text of the rated question; every stored rating names a stored
      question, so the empty fallback is never shown in a consistent store. */
  function QuestionText(questions: seq<Row<Question>>, id: Id): string {
    match Find(questions, id)
    case None => ""
    case Some(q) => q.text
  }

  /** The reviewer's name, with the same kind of fallback. */
  function UserName(users: seq<Row<User>>, id: Id): string {
    match Find(users, id)
    case None => ""
    case Some(u) => u.name
  }

  /** The feedback line built for rating `rt` of review `rev`. */
  function ItemFor(s: Store, rev: Row<PmReview>, rt: Row<PmRating>): FeedbackItem {
    FeedbackItem(rt.id, QuestionText(s.questions, rt.val.question), UserName(s.users, rev.val.reviewer),
                 rt.val.rating, if rt.val.comment.Some? then rt.val.comment.value else "",
                 ReplyTo(s.clarifications, rt.id))
  }

  /** The lines of one review: one per commented rating, in order. */
  function ItemsOf(s: Store, rev: Row<PmReview>, rs: seq<Row<PmRating>>): seq<FeedbackItem> {
    if |rs| == 0 then []
    else
      var last := rs[|rs| - 1];
      ItemsOf(s, rev, rs[..|rs| - 1]) + (if Commented(last) then [ItemFor(s, rev, last)] else [])
  }

  /** The lines of the listed reviews, review by review. */
  function FeedbackOver(s: Store, revs: seq<Row<PmReview>>): seq<FeedbackItem> {
    if |revs| == 0 then []
    else
      var last := revs[|revs| - 1];
      FeedbackOver(s, revs[..|revs| - 1]) + ItemsOf(s, last, RatingsOf(s.ratings, last.id))
  }

  /** The feedback of a cycle, from its SUBMITTED reviews. */
  function Feedback(s: Store, cycleId: Id): seq<FeedbackItem> {
    FeedbackOver(s, SubmittedReviews(s.reviews, cycleId))
  }

  /** The inner loop over one review's ratings. */
  method CollectReviewFeedback(s: Store, review: Row<PmReview>, ratings: seq<Row<PmRating>>) returns (items: seq<FeedbackItem>)
    ensures items == ItemsOf(s, review, ratings)
  {
    items := [];
    var j := 0;
    while j < |ratings|
      invariant 0 <= j <= |ratings|
      invariant items == ItemsOf(s, review, ratings[..j])
    {
      assert ratings[..j + 1][..j] == ratings[..j];
      var rating := ratings[j];
      if rating.val.comment.Some? && rating.val.comment.value != "" {
        var clarification := ReplyTo(s.clarifications, rating.id);
        items := items + [FeedbackItem(rating.id, QuestionText(s.questions, rating.val.question),
                                       UserName(s.users, review.val.reviewer), rating.val.rating,
                                       rating.val.comment.value, clarification)];
      }
      j := j + 1;
    }
    assert ratings[..j] == ratings;
  }

  /** `getFeedback(cycleId)`. */
  method GetFeedback(db: Database, cycleId: Id) returns (r: Result<seq<FeedbackItem>>)
    ensures r == if HasId(db.cycles, cycleId) then Ok(Feedback(db.Snapshot(), cycleId)) else Err(CycleNotFound)
  {
    var cycle := Find(db.cycles, cycleId);
    if cycle.None? {
      return Err(CycleNotFound);
    }
    var s := db.Snapshot();
    var reviews := SubmittedReviews(db.reviews, cycleId);
    var feedbacks: seq<FeedbackItem> := [];
    var i := 0;
    while i < |reviews|
      invariant 0 <= i <= |reviews|
      invariant feedbacks == FeedbackOver(s, reviews[..i])
    {
      assert reviews[..i + 1][..i] == reviews[..i];
      var items := CollectReviewFeedback(s, reviews[i], RatingsOf(db.ratings, reviews[i].id));
      feedbacks := feedbacks + items;
      i := i + 1;
    }
    assert reviews[..i] == reviews;
    return Ok(feedbacks);
  }

  lemma {:induction false} ItemsOfMembers(s: Store, rev: Row<PmReview>, rs: seq<Row<PmRating>>, it: FeedbackItem)
    ensures it in ItemsOf(s, rev, rs) <==> exists j :: 0 <= j < |rs| && Commented(rs[j]) && it == ItemFor(s, rev, rs[j])
  {
    if |rs| > 0 {
      ItemsOfMembers(s, rev, rs[..|rs| - 1], it);
      if exists j :: 0 <= j < |rs| && Commented(rs[j]) && it == ItemFor(s, rev, rs[j]) {
        var j :| 0 <= j < |rs| && Commented(rs[j]) && it == ItemFor(s, rev, rs[j]);
        if j < |rs| - 1 {
          assert rs[..|rs| - 1][j] == rs[j];
        }
      }
    }
  }

  /** Line `it` is produced for rating `rt` by one of the listed reviews. */
  predicate GivenIn(s: Store, revs: seq<Row<PmReview>>, rt: Row<PmRating>, it: FeedbackItem) {
    exists i :: 0 <= i < |revs| && revs[i].id == rt.val.pmReview && it == ItemFor(s, revs[i], rt)
  }

  lemma {:induction false} FeedbackOverSound(s: Store, revs: seq<Row<PmReview>>, it: FeedbackItem)
    requires it in FeedbackOver(s, revs)
    ensures exists j :: 0 <= j < |s.ratings| && Commented(s.ratings[j]) && GivenIn(s, revs, s.ratings[j], it)
  {
    var prefix, last := revs[..|revs| - 1], revs[|revs| - 1];
    var rs := RatingsOf(s.ratings, last.id);
    if it in FeedbackOver(s, prefix) {
      FeedbackOverSound(s, prefix, it);
      var j :| 0 <= j < |s.ratings| && Commented(s.ratings[j]) && GivenIn(s, prefix, s.ratings[j], it);
      var i :| 0 <= i < |prefix| && prefix[i].id == s.ratings[j].val.pmReview && it == ItemFor(s, prefix[i], s.ratings[j]);
      assert revs[i] == prefix[i];
      assert GivenIn(s, revs, s.ratings[j], it);
    } else {
      ItemsOfMembers(s, last, rs, it);
      var k :| 0 <= k < |rs| && Commented(rs[k]) && it == ItemFor(s, last, rs[k]);
      assert rs[k] in s.ratings;
      var j :| 0 <= j < |s.ratings| && s.ratings[j] == rs[k];
      assert GivenIn(s, revs, s.ratings[j], it);
    }
  }

  lemma {:induction false} FeedbackOverComplete(s: Store, revs: seq<Row<PmReview>>, it: FeedbackItem, j: nat)
    requires j < |s.ratings| && Commented(s.ratings[j]) && GivenIn(s, revs, s.ratings[j], it)
    ensures it in FeedbackOver(s, revs)
  {
    var prefix, last := revs[..|revs| - 1], revs[|revs| - 1];
    var i :| 0 <= i < |revs| && revs[i].id == s.ratings[j].val.pmReview && it == ItemFor(s, revs[i], s.ratings[j]);
    if i < |revs| - 1 {
      assert prefix[i] == revs[i];
      FeedbackOverComplete(s, prefix, it, j);
    } else {
      var rs := RatingsOf(s.ratings, last.id);
      assert s.ratings[j] in rs;
      var k :| 0 <= k < |rs| && rs[k] == s.ratings[j];
      ItemsOfMembers(s, last, rs, it);
    }
  }

  lemma FeedbackOverMembers(s: Store, revs: seq<Row<PmReview>>, it: FeedbackItem)
    ensures it in FeedbackOver(s, revs) <==>
            exists j :: 0 <= j < |s.ratings| && Commented(s.ratings[j]) && GivenIn(s, revs, s.ratings[j], it)
  {
    if it in FeedbackOver(s, revs) {
      FeedbackOverSound(s, revs, it);
    }
    if exists j :: 0 <= j < |s.ratings| && Commented(s.ratings[j]) && GivenIn(s, revs, s.ratings[j], it) {
      var j :| 0 <= j < |s.ratings| && Commented(s.ratings[j]) && GivenIn(s, revs, s.ratings[j], it);
      FeedbackOverComplete(s, revs, it, j);
    }
  }

  /** Line `it` is produced for rating `rt` by a SUBMITTED review of cycle `c`. */
  predicate FeedbackFrom(s: Store, c: Id, rt: Row<PmRating>, it: FeedbackItem) {
    exists i :: 0 <= i < |s.reviews| && s.reviews[i].id == rt.val.pmReview &&
      s.reviews[i].val.appraisalCycle == c && s.reviews[i].val.status == Submitted &&
      it == ItemFor(s, s.reviews[i], rt)
  }

  lemma GivenInSubmitted(s: Store, c: Id, rt: Row<PmRating>, it: FeedbackItem)
    ensures GivenIn(s, SubmittedReviews(s.reviews, c), rt, it) <==> FeedbackFrom(s, c, rt, it)
  {
    var revs := SubmittedReviews(s.reviews, c);
    if GivenIn(s, revs, rt, it) {
      var i' :| 0 <= i' < |revs| && revs[i'].id == rt.val.pmReview && it == ItemFor(s, revs[i'], rt);
      assert revs[i'] in s.reviews;
      var i :| 0 <= i < |s.reviews| && s.reviews[i] == revs[i'];
    }
    if FeedbackFrom(s, c, rt, it) {
      var i :| 0 <= i < |s.reviews| && s.reviews[i].id == rt.val.pmReview &&
        s.reviews[i].val.appraisalCycle == c && s.reviews[i].val.status == Submitted &&
        it == ItemFor(s, s.reviews[i], rt);
      assert s.reviews[i] in revs;
      var i' :| 0 <= i' < |revs| && revs[i'] == s.reviews[i];
    }
  }

  /** The feedback of a cycle lists exactly the commented ratings of its
      SUBMITTED reviews, each with the reply stored for it, if any. */
  lemma FeedbackMembers(s: Store, c: Id, it: FeedbackItem)
    ensures it in Feedback(s, c) <==>
            exists j :: 0 <= j < |s.ratings| && Commented(s.ratings[j]) && FeedbackFrom(s, c, s.ratings[j], it)
  {
    FeedbackOverMembers(s, SubmittedReviews(s.reviews, c), it);
    forall j | 0 <= j < |s.ratings|
      ensures GivenIn(s, SubmittedReviews(s.reviews, c), s.ratings[j], it) <==> FeedbackFrom(s, c, s.ratings[j], it)
    {
      GivenInSubmitted(s, c, s.ratings[j], it);
    }
  }

  // ---------------------------------------------------------------- self-assessment

  /** One answer of the submitted list (`RatingSubmissionDto`). */
  datatype RatingSubmission = RatingSubmission(questionId: Id, rating: int, comment: Option<string>)

  /** Every answer names a stored question. */
  predicate SubmissionsKnown(questions: seq<Row<Question>>, subs: seq<RatingSubmission>) {
    forall k :: 0 <= k < |subs| ==> HasId(questions, subs[k].questionId)
  }

  /** The rows that saving one `SelfAssessment` per answer creates. */
  function NewSelfAssessments(cycleId: Id, subs: seq<RatingSubmission>, next: Id): (r: seq<Row<SelfAssessment>>)
    ensures |r| == |subs|
    ensures forall k :: 0 <= k < |r| ==>
              && r[k].id == next + k && r[k].val.appraisalCycle == cycleId
              && r[k].val.question == subs[k].questionId && r[k].val.rating == subs[k].rating
              && r[k].val.comment == subs[k].comment
  {
    seq(|subs|, k requires 0 <= k < |subs| =>
      Row(next + k, SelfAssessment(cycleId, subs[k].questionId, subs[k].rating, subs[k].comment)))
  }

  /** The committed effect of a successful self-assessment: the answers are
      appended, nothing else changes. */
  function SelfAssessmentEffect(s: Store, cycleId: Id, subs: seq<RatingSubmission>): Store {
    s.(selfAssessments := s.selfAssessments + NewSelfAssessments(cycleId, subs, s.nextSelfAssessmentId),
       nextSelfAssessmentId := s.nextSelfAssessmentId + |subs|)
  }

  /** Appending the answers of a stored cycle, all naming stored questions,
      keeps the workflow consistent. */
  lemma SelfAssessmentKeepsConsistent(s: Store, cycleId: Id, subs: seq<RatingSubmission>)
    requires WellFormedStore(s) && Consistent(s)
    requires HasId(s.cycles, cycleId) && SubmissionsKnown(s.questions, subs)
    ensures var s' := SelfAssessmentEffect(s, cycleId, subs);
      WellFormedStore(s') && Consistent(s')
  {
    var added := NewSelfAssessments(cycleId, subs, s.nextSelfAssessmentId);
    var sa' := s.selfAssessments + added;
    forall i, j | 0 <= i < j < |sa'| ensures sa'[i].id < sa'[j].id {
      if j < |s.selfAssessments| {
      } else if i < |s.selfAssessments| {
        assert sa'[i].id < s.nextSelfAssessmentId;
      }
    }
    forall k | 0 <= k < |sa'| ensures SelfAssessmentOk(s.cycles, s.questions, sa'[k].val) {
      if k < |s.selfAssessments| {
        assert SelfAssessmentOk(s.cycles, s.questions, s.selfAssessments[k].val);
      } else {
        assert sa'[k] == added[k - |s.selfAssessments|];
      }
    }
  }

  /** The loop inside the transaction: one row per answer, the first unknown
      question aborts with nothing prepared. */
  method BuildSelfAssessments(questions: seq<Row<Question>>, cycleId: Id, subs: seq<RatingSubmission>, next: Id)
    returns (saved: Option<seq<Row<SelfAssessment>>>)
    ensures saved.Some? <==> SubmissionsKnown(questions, subs)
    ensures saved.Some? ==> saved.value == NewSelfAssessments(cycleId, subs, next)
  {
    var rows: seq<Row<SelfAssessment>> := [];
    var k := 0;
    while k < |subs|
      invariant 0 <= k <= |subs|
      invariant rows == NewSelfAssessments(cycleId, subs[..k], next)
      invariant forall j :: 0 <= j < k ==> HasId(questions, subs[j].questionId)
    {
      var question := Find(questions, subs[k].questionId);
      if question.None? {
        return None;
      }
      rows := rows + [Row(next + k, SelfAssessment(cycleId, subs[k].questionId, subs[k].rating, subs[k].comment))];
      k := k + 1;
    }
    assert subs[..k] == subs;
    return Some(rows);
  }

  /** `submitSelfAssessment(cycleId, submissions)`, as one transaction. The
      cycle's status is not checked and earlier answers are kept. */
  method SubmitSelfAssessment(db: Database, cycleId: Id, subs: seq<RatingSubmission>) returns (r: Result<()>)
    requires db.Valid()
    modifies db
    ensures db.Valid()
    ensures !HasId(old(db.cycles), cycleId) ==> r == Err(CycleNotFound)
    ensures HasId(old(db.cycles), cycleId) && !SubmissionsKnown(old(db.questions), subs) ==> r == Err(QuestionNotFound)
    ensures r.Ok? <==> HasId(old(db.cycles), cycleId) && SubmissionsKnown(old(db.questions), subs)
    ensures r.Err? ==> db.Snapshot() == old(db.Snapshot())
    ensures r.Ok? ==> db.Snapshot() == SelfAssessmentEffect(old(db.Snapshot()), cycleId, subs)
  {
    var cycle := Find(db.cycles, cycleId);
    if cycle.None? {
      return Err(CycleNotFound);
    }
    var saved := BuildSelfAssessments(db.questions, cycleId, subs, db.nextSelfAssessmentId);
    if saved.None? {
      return Err(QuestionNotFound);
    }
    SelfAssessmentKeepsConsistent(db.Snapshot(), cycleId, subs);
    db.selfAssessments := db.selfAssessments + saved.value;
    db.nextSelfAssessmentId := db.nextSelfAssessmentId + |subs|;
    r := Ok(());
  }

  /** After a self-assessment, the report shows for each answered question
      the rating of the last answer to it in that submission. */
  lemma SelfAssessmentShowsInReport(s: Store, cycleId: Id, subs: seq<RatingSubmission>, k: nat, n: nat)
    requires k < |subs| && n < |s.questions| && subs[k].questionId == s.questions[n].id
    requires forall j :: k < j < |subs| ==> subs[j].questionId != subs[k].questionId
    ensures Report(SelfAssessmentEffect(s, cycleId, subs), cycleId)[n].selfRating == Some(subs[k].rating)
  {
    var s' := SelfAssessmentEffect(s, cycleId, subs);
    var old_ := |s.selfAssessments|;
    var added := NewSelfAssessments(cycleId, subs, s.nextSelfAssessmentId);
    assert s'.selfAssessments[old_ + k] == added[k];
    forall j | old_ + k < j < |s'.selfAssessments|
      ensures !(s'.selfAssessments[j].val.appraisalCycle == cycleId &&
                s'.selfAssessments[j].val.question == s'.selfAssessments[old_ + k].val.question)
    {
      assert s'.selfAssessments[j] == added[j - old_];
    }
    SelfRatingIsLatest(s'.selfAssessments, cycleId, old_ + k);
  }

  // ---------------------------------------------------------------- clarification

  /** The committed effect of a clarification: one row appended. */
  function ClarificationEffect(s: Store, ratingId: Id, reply: string, now: Timestamp): Store {
    s.(clarifications := s.clarifications + [Row(s.nextClarificationId, Clarification(ratingId, reply, now))],
       nextClarificationId := s.nextClarificationId + 1)
  }

  /** A first reply to a stored rating keeps the workflow consistent. */
  lemma ClarificationKeepsConsistent(s: Store, ratingId: Id, reply: string, now: Timestamp)
    requires WellFormedStore(s) && Consistent(s)
    requires HasId(s.ratings, ratingId) && FindByPmRating(s.clarifications, ratingId).None?
    ensures var s' := ClarificationEffect(s, ratingId, reply, now);
      WellFormedStore(s') && Consistent(s')
  {
    AppendWellFormed(s.clarifications, s.nextClarificationId, Clarification(ratingId, reply, now));
    ClarificationAppendOk(s.ratings, s.clarifications, Row(s.nextClarificationId, Clarification(ratingId, reply, now)));
  }

  /** Appending a first clarification of a stored rating keeps every
      clarification on a stored rating, at most one per rating. */
  lemma ClarificationAppendOk(ratings: seq<Row<PmRating>>, cls: seq<Row<Clarification>>, c: Row<Clarification>)
    requires forall i :: 0 <= i < |cls| ==> HasId(ratings, cls[i].val.pmRating)
    requires UniqueClarificationPerRating(cls)
    requires HasId(ratings, c.val.pmRating)
    requires forall i :: 0 <= i < |cls| ==> cls[i].val.pmRating != c.val.pmRating
    ensures forall i :: 0 <= i < |cls + [c]| ==> HasId(ratings, (cls + [c])[i].val.pmRating)
    ensures UniqueClarificationPerRating(cls + [c])
  {
    var cls' := cls + [c];
    forall i, j | 0 <= i < j < |cls'| ensures cls'[i].val.pmRating != cls'[j].val.pmRating {
      assert cls'[i] == cls[i];
      if j < |cls| {
        assert cls'[j] == cls[j];
      }
    }
  }

  /** `submitClarification(request)` at time `now`. */
  method SubmitClarification(db: Database, ratingId: Id, reply: string, now: Timestamp) returns (r: Result<()>)
    requires db.Valid()
    modifies db
    ensures db.Valid()
    ensures !HasId(old(db.ratings), ratingId) ==> r == Err(RatingNotFound)
    ensures HasId(old(db.ratings), ratingId) && FindByPmRating(old(db.clarifications), ratingId).Some? ==>
              r == Err(ClarificationAlreadySubmitted)
    ensures r.Ok? <==> HasId(old(db.ratings), ratingId) && FindByPmRating(old(db.clarifications), ratingId).None?
    ensures r.Err? ==> db.Snapshot() == old(db.Snapshot())
    ensures r.Ok? ==> db.Snapshot() == ClarificationEffect(old(db.Snapshot()), ratingId, reply, now)
  {
    var rating := Find(db.ratings, ratingId);
    if rating.None? {
      return Err(RatingNotFound);
    }
    if FindByPmRating(db.clarifications, ratingId).Some? {
      return Err(ClarificationAlreadySubmitted);
    }
    ClarificationKeepsConsistent(db.Snapshot(), ratingId, reply, now);
    db.Commit(db.Snapshot().(
      clarifications := db.clarifications + [Row(db.nextClarificationId, Clarification(ratingId, reply, now))],
      nextClarificationId := db.nextClarificationId + 1));
    r := Ok(());
  }

  /** Once a reply is stored, the feedback shows it for that rating. */
  lemma ClarificationShowsInFeedback(s: Store, ratingId: Id, reply: string, now: Timestamp)
    requires FindByPmRating(s.clarifications, ratingId).None?
    ensures ReplyTo(ClarificationEffect(s, ratingId, reply, now).clarifications, ratingId) == Some(reply)
  {
    var cls' := ClarificationEffect(s, ratingId, reply, now).clarifications;
    assert cls'[|cls'| - 1].val.pmRating == ratingId;
    var r := ReplyTo(cls', ratingId);
    var i :| 0 <= i < |cls'| && cls'[i].val.pmRating == ratingId && cls'[i].val.employeeReply == r.value;
    if i < |s.clarifications| {
      assert cls'[i] == s.clarifications[i];
    }
  }

  /** A second reply to the same rating is refused and stores nothing. */
  method SubmitClarificationTwice(db: Database, ratingId: Id, first: string, second: string, now: Timestamp)
    returns (r1: Result<()>, r2: Result<()>)
    requires db.Valid()
    modifies db
    ensures db.Valid()
    ensures r1.Ok? ==> r2 == Err(ClarificationAlreadySubmitted)
  {
    r1 := SubmitClarification(db, ratingId, first, now);
    if r1.Ok? {
      assert db.clarifications[|db.clarifications| - 1].val.pmRating == ratingId;
    }
    r2 := SubmitClarification(db, ratingId, second, now);
  }
}
