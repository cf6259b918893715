/** `EmployeeDashboard`: the self-assessment drafts, edited in place by
    index, the submission guard, and the chart points drawn from the
    employee's report. */
module EmployeeDashboard {
  import opened Wrappers
  import opened QuestionDrafts
  import EmployeeService

  /** The fields of the active cycle the page uses. */
  datatype ActiveCycle = ActiveCycle(id: int, year: string)

  /** The self-assessment request: the cycle in the path, the drafts as body. */
  datatype Submission = Submission(cycleId: int, body: seq<RatingDraft>)

  /** One point of the radar and bar charts. */
  datatype ChartPoint = ChartPoint(subject: string, fullQuestion: string, pm: real, self: int)

  const LegendLength: nat := 20
  const Ellipsis: string := "..."

  /** A chart point: the category, marked with `...` when the question text
      is longer than 20 characters, the PM average, and the self rating, 0
      when there is none (`selfRating || 0`). */
  function Point(d: EmployeeService.ReportEntry): (p: ChartPoint)
    ensures p.fullQuestion == d.questionText && p.pm == d.pmAverageRating
    ensures p.subject == d.category + Ellipsis <==> |d.questionText| > LegendLength
    ensures |d.questionText| <= LegendLength ==> p.subject == d.category
    ensures p.self == (if d.selfRating.Some? then d.selfRating.value else 0)
  {
    var subject := d.category + (if |d.questionText| > LegendLength then Ellipsis else "");
    assert |d.questionText| <= LegendLength ==> |subject| < |d.category + Ellipsis|;
    var self := match d.selfRating
      case None => 0
      case Some(v) => if v != 0 then v else 0;
    ChartPoint(subject, d.questionText, d.pmAverageRating, self)
  }

  /** `chartData`: one point per report entry, in the report's order. */
  function ChartData(report: seq<EmployeeService.ReportEntry>): (r: seq<ChartPoint>)
    ensures |r| == |report|
    ensures forall i :: 0 <= i < |r| ==> r[i] == Point(report[i])
  {
    seq(|report|, i requires 0 <= i < |report| => Point(report[i]))
  }

  class Dashboard {
    var activeCycle: Option<ActiveCycle>
    var questions: seq<QuestionView>
    var submissions: array<RatingDraft>

    /** One draft per question shown, each naming its question. */
    predicate Valid()
      reads this, submissions
    {
      && submissions.Length == |questions|
      && forall i :: 0 <= i < submissions.Length ==> submissions[i].questionId == questions[i].id
    }

    /** The first render: no cycle, no questions, no drafts. */
    constructor()
      ensures Valid() && activeCycle.None? && questions == [] && submissions.Length == 0
    {
      activeCycle := None;
      questions := [];
      submissions := new RatingDraft[0];
    }

    /** The answer of `/employee/active-cycle`. */
    method SetActiveCycle(cycle: Option<ActiveCycle>)
      modifies this
      ensures activeCycle == cycle && questions == old(questions) && submissions == old(submissions)
    {
      activeCycle := cycle;
    }

    /** `fetchQuestions`: the questions as received and a blank draft for each. */
    method LoadQuestions(data: seq<QuestionView>)
      modifies this
      ensures Valid() && fresh(submissions) && activeCycle == old(activeCycle)
      ensures questions == data && submissions[..] == BlankDrafts(data)
    {
      questions := data;
      submissions := new RatingDraft[|data|](i requires 0 <= i < |data| => Blank(data[i]));
    }

    /** `handleRatingChange(index, value)`: only draft `index` changes, and
        only its rating, to `value[0]`. */
    method HandleRatingChange(index: int, value: seq<int>)
      requires Valid() && 0 <= index < submissions.Length && |value| > 0
      modifies submissions
      ensures Valid()
      ensures RatingSetAt(old(submissions[..]), submissions[..], index, value[0])
    {
      submissions[index] := submissions[index].(rating := value[0]);
    }

    /** `handleCommentChange(index, value)`: only draft `index` changes, and
        only its comment. */
    method HandleCommentChange(index: int, value: string)
      requires Valid() && 0 <= index < submissions.Length
      modifies submissions
      ensures Valid()
      ensures CommentSetAt(old(submissions[..]), submissions[..], index, value)
    {
      submissions[index] := submissions[index].(comment := value);
    }

    /** `handleSubmitAssessment`: nothing is sent without an active cycle;
        otherwise every draft is posted for that cycle. */
    method HandleSubmitAssessment() returns (sent: Option<Submission>)
      requires Valid()
      ensures sent.None? <==> activeCycle.None?
      ensures sent.Some? ==>
        && sent.value.cycleId == activeCycle.value.id
        && sent.value.body == submissions[..]
        && |sent.value.body| == |questions|
        && forall i :: 0 <= i < |questions| ==> sent.value.body[i].questionId == questions[i].id
    {
      if activeCycle.None? {
        return None;
      }
      sent := Some(Submission(activeCycle.value.id, submissions[..]));
    }
  }
}
