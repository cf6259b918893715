/** `ReviewForm`: the manager's step-by-step review, one question per step,
    over an array of rating drafts edited in place. */
module ReviewForm {
  import opened QuestionDrafts

  /** The button to the right of Previous. */
  datatype Forward = NextButton | SubmitButton

  /** What the form renders: the loading text while no questions are
      loaded, otherwise the current question with its draft. */
  datatype Screen =
    | LoadingScreen
    | StepScreen(question: QuestionView, draft: RatingDraft, step: nat, total: nat,
                 previousEnabled: bool, forward: Forward)

  class Wizard {
    var questions: seq<QuestionView>
    var ratings: array<RatingDraft>
    var currentStep: int

    /** One draft per question, each naming its question, and a step that
        points at a question whenever there is one. */
    predicate Valid()
      reads this, ratings
    {
      && ratings.Length == |questions|
      && (forall i :: 0 <= i < ratings.Length ==> ratings[i].questionId == questions[i].id)
      && 0 <= currentStep
      && (currentStep < |questions| || currentStep == 0)
    }

    /** There is a question at the current step (`questions[currentStep]`
        is defined). */
    predicate OnQuestion()
      reads this
    {
      0 <= currentStep < |questions|
    }

    /** Previous is enabled unless the form is at step 0. */
    predicate PreviousEnabled()
      reads this
    {
      currentStep != 0
    }

    /** Next is shown before the last question; Submit replaces it there. */
    predicate NextOffered()
      reads this
    {
      currentStep < |questions| - 1
    }

    /** The first render: no questions, no drafts, step 0. */
    constructor()
      ensures Valid() && questions == [] && ratings.Length == 0 && currentStep == 0
    {
      questions := [];
      ratings := new RatingDraft[0];
      currentStep := 0;
    }

    /** `fetchQuestions`: the questions as received and a blank draft for each. */
    method LoadQuestions(data: seq<QuestionView>)
      requires currentStep == 0
      modifies this
      ensures Valid() && fresh(ratings)
      ensures questions == data && ratings[..] == BlankDrafts(data) && currentStep == 0
    {
      questions := data;
      ratings := new RatingDraft[|data|](i requires 0 <= i < |data| => Blank(data[i]));
    }

    /** `handleRatingChange(value)`: the current draft's rating becomes
        `value[0]`; without a question at the step nothing changes. */
    method HandleRatingChange(value: seq<int>)
      requires Valid() && |value| > 0
      modifies ratings
      ensures Valid()
      ensures OnQuestion() ==> RatingSetAt(old(ratings[..]), ratings[..], currentStep, value[0])
      ensures !OnQuestion() ==> ratings[..] == old(ratings[..])
    {
      if !(0 <= currentStep < |questions|) {
        return;
      }
      ratings[currentStep] := ratings[currentStep].(rating := value[0]);
    }

    /** `handleCommentChange(value)`: the current draft's comment becomes
        `value`; without a question at the step nothing changes. */
    method HandleCommentChange(value: string)
      requires Valid()
      modifies ratings
      ensures Valid()
      ensures OnQuestion() ==> CommentSetAt(old(ratings[..]), ratings[..], currentStep, value)
      ensures !OnQuestion() ==> ratings[..] == old(ratings[..])
    {
      if !(0 <= currentStep < |questions|) {
        return;
      }
      ratings[currentStep] := ratings[currentStep].(comment := value);
    }

    /** The Previous button: one step back; it cannot be pressed at step 0. */
    method Previous()
      requires Valid() && PreviousEnabled()
      modifies this
      ensures Valid() && currentStep == old(currentStep) - 1 && currentStep >= 0
      ensures questions == old(questions) && ratings == old(ratings)
    {
      currentStep := currentStep - 1;
    }

    /** The Next button: one step forward; it is only shown before the last
        question, so the step stays on a question. */
    method Next()
      requires Valid() && NextOffered()
      modifies this
      ensures Valid() && currentStep == old(currentStep) + 1 && currentStep < |questions|
      ensures questions == old(questions) && ratings == old(ratings)
    {
      currentStep := currentStep + 1;
    }

    /** `handleSubmit`: the body posted is every draft, one per loaded
        question and in the questions' order. */
    method Submit() returns (body: seq<RatingDraft>)
      requires Valid() && OnQuestion() && !NextOffered()
      ensures |body| == |questions| && currentStep == |questions| - 1
      ensures forall i :: 0 <= i < |body| ==> body[i].questionId == questions[i].id
      ensures body == ratings[..]
    {
      body := ratings[..];
    }

    /** The rendered screen. */
    function Render(): (r: Screen)
      reads this, ratings
      requires Valid()
      ensures r == LoadingScreen <==> |questions| == 0
      ensures r.StepScreen? ==>
        && r.question == questions[currentStep] && r.draft.questionId == r.question.id
        && r.step == currentStep && r.total == |questions|
        && (r.previousEnabled <==> currentStep > 0)
        && (r.forward == SubmitButton <==> currentStep == |questions| - 1)
    {
      if |questions| == 0 then LoadingScreen
      else StepScreen(questions[currentStep], ratings[currentStep], currentStep, |questions|,
                      currentStep != 0, if currentStep < |questions| - 1 then NextButton else SubmitButton)
    }
  }
}
