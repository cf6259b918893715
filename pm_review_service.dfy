/** `PmReviewService`: a project manager's pending reviews, the active
    questions, and the transactional submission of a review's ratings. */
module PmReviewService {
  import opened Wrappers
  import opened Model
  import opened Tables
  import opened Repositories

  /** One entry of the submitted rating list (`PmRatingDto`). */
  datatype PmRatingDto = PmRatingDto(questionId: Id, rating: int, comment: Option<string>)

  /** `findByReviewerAndStatus(reviewer, PENDING)`: exactly the reviewer's PENDING reviews. */
  function GetPendingReviews(reviews: seq<Row<PmReview>>, reviewer: Id): (r: seq<Row<PmReview>>)
    ensures forall i :: 0 <= i < |r| ==> r[i] in reviews && r[i].val.reviewer == reviewer && r[i].val.status == Pending
    ensures forall i :: 0 <= i < |reviews| && reviews[i].val.reviewer == reviewer && reviews[i].val.status == Pending ==>
              reviews[i] in r
    ensures IdsIncreasing(reviews) ==> IdsIncreasing(r)
  {
    var p := (rv: Row<PmReview>) => rv.val.reviewer == reviewer && rv.val.status == Pending;
    assert IdsIncreasing(reviews) ==> IdsIncreasing(Select(reviews, p)) by {
      if IdsIncreasing(reviews) { SelectIncreasing(reviews, p); }
    }
    Select(reviews, p)
  }

  /** `findByActiveTrue`: exactly the questions whose `active` flag is set. */
  function GetActiveQuestions(questions: seq<Row<Question>>): (r: seq<Row<Question>>)
    ensures forall i :: 0 <= i < |r| ==> r[i] in questions && r[i].val.active
    ensures forall i :: 0 <= i < |questions| && questions[i].val.active ==> questions[i] in r
    ensures IdsIncreasing(questions) ==> IdsIncreasing(r)
  {
    var p := (q: Row<Question>) => q.val.active;
    assert IdsIncreasing(questions) ==> IdsIncreasing(Select(questions, p)) by {
      if IdsIncreasing(questions) { SelectIncreasing(questions, p); }
    }
    Select(questions, p)
  }

  /** The rows that saving one `PmRating` per entry creates, with generated ids from `next` on. */
  function NewRatings(reviewId: Id, dtos: seq<PmRatingDto>, next: Id): (r: seq<Row<PmRating>>)
    ensures |r| == |dtos|
    ensures forall k :: 0 <= k < |r| ==>
              && r[k].id == next + k && r[k].val.pmReview == reviewId
              && r[k].val.question == dtos[k].questionId && r[k].val.rating == dtos[k].rating
              && r[k].val.comment == dtos[k].comment
  {
    seq(|dtos|, k requires 0 <= k < |dtos| =>
      Row(next + k, PmRating(reviewId, dtos[k].questionId, dtos[k].rating, dtos[k].comment)))
  }

  /** Every entry names a stored question. */
  predicate QuestionsKnown(questions: seq<Row<Question>>, dtos: seq<PmRatingDto>) {
    forall k :: 0 <= k < |dtos| ==> HasId(questions, dtos[k].questionId)
  }

  /** The committed effect of a successful submission: the ratings are
      appended, the review becomes SUBMITTED with feedback date `now`, and its
      cycle becomes PENDING_BOSS_REVIEW. */
  function SubmitEffect(s: Store, reviewId: Id, dtos: seq<PmRatingDto>, now: Timestamp): (s': Store)
    requires Consistent(s) && Find(s.reviews, reviewId).Some?
    ensures s'.users == s.users && s'.questions == s.questions
    ensures s'.selfAssessments == s.selfAssessments && s'.clarifications == s.clarifications
  {
    var rv := Find(s.reviews, reviewId).value;
    StoredReviewOk(s, reviewId);
    var c := Find(s.cycles, rv.appraisalCycle).value;
    s.(reviews := Update(s.reviews, reviewId, rv.(status := Submitted, feedbackDate := Some(now))),
       cycles := Update(s.cycles, rv.appraisalCycle, c.(status := PendingBossReview)),
       ratings := s.ratings + NewRatings(reviewId, dtos, s.nextRatingId),
       nextRatingId := s.nextRatingId + |dtos|)
  }

  /** The reviews after a submission still satisfy the review constraints
      against the cycles after it, and still one per cycle. */
  lemma SubmitReviewsOk(s: Store, reviewId: Id, now: Timestamp)
    requires WellFormedStore(s) && Consistent(s)
    requires Find(s.reviews, reviewId).Some? && Find(s.reviews, reviewId).value.status == Pending
    ensures var s' := SubmitEffect(s, reviewId, [], now);
      && (forall k :: 0 <= k < |s'.reviews| ==> ReviewOk(s.users, s'.cycles, s'.reviews[k].val))
      && UniqueReviewPerCycle(s'.reviews)
  {
    var rv := Find(s.reviews, reviewId).value;
    var rv' := rv.(status := Submitted, feedbackDate := Some(now));
    var i0 := IndexOf(s.reviews, reviewId).value;
    var cid := rv.appraisalCycle;
    StoredReviewOk(s, reviewId);
    var c' := Find(s.cycles, cid).value.(status := PendingBossReview);
    var reviews' := Update(s.reviews, reviewId, rv');
    var cycles' := Update(s.cycles, cid, c');
    forall k | 0 <= k < |reviews'| ensures ReviewOk(s.users, cycles', reviews'[k].val) {
      assert ReviewOk(s.users, s.cycles, s.reviews[k].val);
      FindUpdate(s.cycles, cid, c', reviews'[k].val.appraisalCycle);
      if s.reviews[k].id != reviewId {
        assert k != i0;
        assert s.reviews[k].val.appraisalCycle != cid by {
          if k < i0 {} else {}
        }
      }
    }
    forall i, j | 0 <= i < j < |reviews'| ensures reviews'[i].val.appraisalCycle != reviews'[j].val.appraisalCycle {
      if s.reviews[i].id == reviewId { FindRow(s.reviews, i); }
      if s.reviews[j].id == reviewId { FindRow(s.reviews, j); }
    }
  }

  /** Appending the new rating rows keeps the rating table well formed. */
  lemma NewRatingsWellFormed(ratings: seq<Row<PmRating>>, next: Id, reviewId: Id, dtos: seq<PmRatingDto>)
    requires WellFormed(ratings, next)
    ensures WellFormed(ratings + NewRatings(reviewId, dtos, next), next + |dtos|)
  {
    var ratings' := ratings + NewRatings(reviewId, dtos, next);
    forall i, j | 0 <= i < j < |ratings'| ensures ratings'[i].id < ratings'[j].id {
      if j < |ratings| {
      } else if i < |ratings| {
        assert ratings'[i].id < next;
      }
    }
  }

  /** After the review is marked SUBMITTED, the old ratings and the new ones
      all belong to submitted reviews and stored questions. */
  lemma NewRatingsOk(reviews: seq<Row<PmReview>>, questions: seq<Row<Question>>, ratings: seq<Row<PmRating>>,
                     reviewId: Id, v: PmReview, dtos: seq<PmRatingDto>, next: Id)
    requires HasId(reviews, reviewId) && v.status == Submitted
    requires forall k :: 0 <= k < |ratings| ==> RatingOk(reviews, questions, ratings[k].val)
    requires QuestionsKnown(questions, dtos)
    ensures var ratings' := ratings + NewRatings(reviewId, dtos, next);
      forall k :: 0 <= k < |ratings'| ==> RatingOk(Update(reviews, reviewId, v), questions, ratings'[k].val)
  {
    var added := NewRatings(reviewId, dtos, next);
    var ratings' := ratings + added;
    forall k | 0 <= k < |ratings'| ensures RatingOk(Update(reviews, reviewId, v), questions, ratings'[k].val) {
      FindUpdate(reviews, reviewId, v, ratings'[k].val.pmReview);
      if k < |ratings| {
        assert RatingOk(reviews, questions, ratings[k].val);
      } else {
        assert ratings'[k] == added[k - |ratings|];
      }
    }
  }

  /** Appending ratings keeps every clarification's rating stored. */
  lemma AppendKeepsClarified(ratings: seq<Row<PmRating>>, added: seq<Row<PmRating>>, cls: seq<Row<Clarification>>)
    requires forall k :: 0 <= k < |cls| ==> HasId(ratings, cls[k].val.pmRating)
    ensures forall k :: 0 <= k < |cls| ==> HasId(ratings + added, cls[k].val.pmRating)
  {
    forall k | 0 <= k < |cls| ensures HasId(ratings + added, cls[k].val.pmRating) {
      var x := cls[k].val.pmRating;
      assert Row(x, Find(ratings, x).value) in ratings + added;
      MemberHasId(ratings + added, Row(x, Find(ratings, x).value));
    }
  }

  /** Submitting a PENDING review whose entries all name stored questions
      keeps the workflow consistent, and the review's cycle advances. */
  lemma SubmitKeepsConsistent(s: Store, reviewId: Id, dtos: seq<PmRatingDto>, now: Timestamp)
    requires WellFormedStore(s) && Consistent(s)
    requires Find(s.reviews, reviewId).Some? && Find(s.reviews, reviewId).value.status == Pending
    requires QuestionsKnown(s.questions, dtos)
    ensures var s' := SubmitEffect(s, reviewId, dtos, now);
      WellFormedStore(s') && Consistent(s') && Advances(s.cycles, s'.cycles)
  {
    var rv := Find(s.reviews, reviewId).value;
    StoredReviewOk(s, reviewId);
    var cid := rv.appraisalCycle;
    var c' := Find(s.cycles, cid).value.(status := PendingBossReview);
    var s' := SubmitEffect(s, reviewId, dtos, now);
    assert s'.cycles == Update(s.cycles, cid, c');
    assert s'.reviews == SubmitEffect(s, reviewId, [], now).reviews;
    assert s'.cycles == SubmitEffect(s, reviewId, [], now).cycles;
    UpdateWellFormed(s.reviews, s.nextReviewId, reviewId, rv.(status := Submitted, feedbackDate := Some(now)));
    UpdateWellFormed(s.cycles, s.nextCycleId, cid, c');
    UpdateCycleOk(s.users, s.cycles, cid, c');
    SubmitReviewsOk(s, reviewId, now);
    NewRatingsWellFormed(s.ratings, s.nextRatingId, reviewId, dtos);
    NewRatingsOk(s.reviews, s.questions, s.ratings, reviewId, rv.(status := Submitted, feedbackDate := Some(now)), dtos, s.nextRatingId);
    AppendKeepsClarified(s.ratings, NewRatings(reviewId, dtos, s.nextRatingId), s.clarifications);
    AdvanceByUpdate(s.cycles, cid, c');
    UpdateKeepsIds(s.cycles, cid, c');
    SelfAssessmentsSurvive(s.selfAssessments, s.cycles, s'.cycles, s.questions);
  }

  /** The body of the rating loop inside the transaction: each entry's
      question is looked up and one rating row is prepared per entry; the first
      unknown question aborts with nothing prepared. */
  method BuildRatings(questions: seq<Row<Question>>, reviewId: Id, dtos: seq<PmRatingDto>, next: Id)
    returns (saved: Option<seq<Row<PmRating>>>)
    ensures saved.Some? <==> QuestionsKnown(questions, dtos)
    ensures saved.Some? ==> saved.value == NewRatings(reviewId, dtos, next)
  {
    var rows: seq<Row<PmRating>> := [];
    var k := 0;
    while k < |dtos|
      invariant 0 <= k <= |dtos|
      invariant rows == NewRatings(reviewId, dtos[..k], next)
      invariant forall j :: 0 <= j < k ==> HasId(questions, dtos[j].questionId)
    {
      var question := Find(questions, dtos[k].questionId);
      if question.None? {
        return None;
      }
      rows := rows + [Row(next + k, PmRating(reviewId, dtos[k].questionId, dtos[k].rating, dtos[k].comment))];
      k := k + 1;
    }
    assert dtos[..k] == dtos;
    return Some(rows);
  }

  /** `submitReview(reviewId, ratings)` at time `now`, as one transaction: an
      unknown question aborts it before anything is written. */
  method SubmitReview(db: Database, reviewId: Id, dtos: seq<PmRatingDto>, now: Timestamp) returns (r: Result<()>)
    requires db.Valid()
    modifies db
    ensures db.Valid()
    ensures var rv := Find(old(db.reviews), reviewId);
      && (rv.None? ==> r == Err(ReviewNotFound))
      && (rv.Some? && rv.value.status != Pending ==> r == Err(ReviewAlreadySubmitted))
      && (rv.Some? && rv.value.status == Pending && !QuestionsKnown(old(db.questions), dtos) ==> r == Err(QuestionNotFound))
      && (r.Ok? <==> rv.Some? && rv.value.status == Pending && QuestionsKnown(old(db.questions), dtos))
    ensures r.Err? ==> db.Snapshot() == old(db.Snapshot())
    ensures r.Ok? ==> db.Snapshot() == SubmitEffect(old(db.Snapshot()), reviewId, dtos, now)
    ensures Advances(old(db.cycles), db.cycles)
  {
    var review := Find(db.reviews, reviewId);
    if review.None? {
      return Err(ReviewNotFound);
    }
    if review.value.status != Pending {
      return Err(ReviewAlreadySubmitted);
    }
    var saved := BuildRatings(db.questions, reviewId, dtos, db.nextRatingId);
    if saved.None? {
      return Err(QuestionNotFound);
    }
    var rv := review.value;
    SubmitKeepsConsistent(db.Snapshot(), reviewId, dtos, now);
    StoredReviewOk(db.Snapshot(), reviewId);
    var c := Find(db.cycles, rv.appraisalCycle).value;
    // the transaction's writes, committed together
    db.Commit(db.Snapshot().(
      ratings := db.ratings + saved.value,
      nextRatingId := db.nextRatingId + |dtos|,
      reviews := Update(db.reviews, reviewId, rv.(status := Submitted, feedbackDate := Some(now))),
      cycles := Update(db.cycles, rv.appraisalCycle, c.(status := PendingBossReview))));
    r := Ok(());
  }

  /** A review can be submitted once: resubmitting it is refused. */
  method SubmitReviewTwice(db: Database, reviewId: Id, first: seq<PmRatingDto>, second: seq<PmRatingDto>, now: Timestamp)
    returns (r1: Result<()>, r2: Result<()>)
    requires db.Valid()
    modifies db
    ensures db.Valid()
    ensures r1.Ok? ==> r2 == Err(ReviewAlreadySubmitted)
  {
    r1 := SubmitReview(db, reviewId, first, now);
    if r1.Ok? {
      var rv := Find(old(db.reviews), reviewId).value;
      FindUpdate(old(db.reviews), reviewId, rv.(status := Submitted, feedbackDate := Some(now)), reviewId);
    }
    r2 := SubmitReview(db, reviewId, second, now);
  }
}
