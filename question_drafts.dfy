/** The question list the forms fetch and the per-question rating drafts
    they start from (`Question`, and the `{ questionId, rating, comment }`
    entries of the review form and of the self-assessment form). */
module QuestionDrafts {

  datatype QuestionView = QuestionView(id: int, text: string, category: string)

  datatype RatingDraft = RatingDraft(questionId: int, rating: int, comment: string)

  const DefaultRating: int := 5

  /** The draft a question starts with: rating 5 and an empty comment. */
  function Blank(q: QuestionView): (d: RatingDraft)
    ensures d.questionId == q.id && d.rating == DefaultRating && d.comment == ""
  {
    RatingDraft(q.id, DefaultRating, "")
  }

  /** `data.map(q => ({ questionId: q.id, rating: 5, comment: '' }))`. */
  function BlankDrafts(questions: seq<QuestionView>): (r: seq<RatingDraft>)
    ensures |r| == |questions|
    ensures forall i :: 0 <= i < |r| ==> r[i] == Blank(questions[i])
  {
    seq(|questions|, i requires 0 <= i < |questions| => Blank(questions[i]))
  }

  /** Only entry `i` of `after` differs from `before`, and in that entry
      only the rating, now `v`. */
  predicate RatingSetAt(before: seq<RatingDraft>, after: seq<RatingDraft>, i: int, v: int) {
    && |after| == |before| && 0 <= i < |before|
    && after[i] == before[i].(rating := v)
    && forall j :: 0 <= j < |before| && j != i ==> after[j] == before[j]
  }

  /** Only entry `i` of `after` differs from `before`, and in that entry
      only the comment, now `c`. */
  predicate CommentSetAt(before: seq<RatingDraft>, after: seq<RatingDraft>, i: int, c: string) {
    && |after| == |before| && 0 <= i < |before|
    && after[i] == before[i].(comment := c)
    && forall j :: 0 <= j < |before| && j != i ==> after[j] == before[j]
  }
}
