/**
 * The "recent results" table of the admin dashboard (frontend/src/pages/AdminDashboard.tsx):
 * each stored result, whose fields come from either the current or a legacy record layout and
 * may be absent, becomes one displayed row through `||` fallbacks and a little arithmetic.
 * Percentages are integers and `Math.round(c / t * 100)` is idealised as the exact rounded
 * quotient `RoundDiv(100 * c, t)`.
 */
module AdminDashboard {
  import opened Wrappers
  import Js

  /** A result as the dashboard receives it; every field may be missing. The `legacy…` fields are
      the backward-compatible names (`name`, `class`, `studentName`, `quizName`, `totalQuestions`,
      `correctAnswers`, `submittedAt`). */
  datatype ResultRecord = ResultRecord(
    studentName: Option<string>,
    legacyName: Option<string>,
    legacyStudentName: Option<string>,
    className: Option<string>,
    legacyClass: Option<string>,
    section: Option<string>,
    fullStudentId: Option<string>,
    quizId: Option<string>,
    legacyQuizName: Option<string>,
    score: Option<int>,
    totalQuestions: Option<int>,
    legacyTotalQuestions: Option<int>,
    legacyCorrectAnswers: Option<int>,
    wrong: Option<int>,
    answeredQuestions: Option<int>,
    percentage: Option<int>,
    submittedAt: Option<string>,
    legacySubmittedAt: Option<string>,
    dateSubmitted: Option<string>)

  /** The "Submitted" cell: a date string shown through `toLocaleDateString`, or plain text. */
  datatype SubmittedCell = LocalDate(source: string) | Text(text: string)

  /** One table row. */
  datatype Row = Row(
    name: string, classLabel: string, quiz: string,
    total: int, correct: int, wrong: int, answered: int, unanswered: int, percentage: int,
    submitted: SubmittedCell)

  /** `total_questions || totalQuestions || 10`: a zero is skipped like a missing value, so the
      total is never zero, and it is positive unless a stored total is negative. */
  function TotalQuestions(r: ResultRecord): (t: int)
    ensures t != 0
    ensures t == 10 || r.totalQuestions == Some(t) || r.legacyTotalQuestions == Some(t)
    ensures Js.TruthyNumber(r.totalQuestions) ==> t == r.totalQuestions.value
    ensures !Js.TruthyNumber(r.totalQuestions) && !Js.TruthyNumber(r.legacyTotalQuestions) ==> t == 10
    ensures ((r.totalQuestions.Some? ==> r.totalQuestions.value >= 0)
             && (r.legacyTotalQuestions.Some? ==> r.legacyTotalQuestions.value >= 0)) ==> t > 0
  {
    Js.NumberOr(r.totalQuestions, Js.NumberOr(r.legacyTotalQuestions, 10))
  }

  /** `score || correctAnswers || 0`. */
  function CorrectAnswers(r: ResultRecord): (c: int)
    ensures Js.TruthyNumber(r.score) ==> c == r.score.value
    ensures !Js.TruthyNumber(r.score) && Js.TruthyNumber(r.legacyCorrectAnswers) ==> c == r.legacyCorrectAnswers.value
    ensures !Js.TruthyNumber(r.score) && !Js.TruthyNumber(r.legacyCorrectAnswers) ==> c == 0
  {
    Js.NumberOr(r.score, Js.NumberOr(r.legacyCorrectAnswers, 0))
  }

  /** `wrong || (answered_questions ? answered_questions - correct : 0)`. */
  function WrongAnswers(r: ResultRecord, correct: int): (w: int)
    ensures Js.TruthyNumber(r.wrong) ==> w == r.wrong.value
    ensures !Js.TruthyNumber(r.wrong) && Js.TruthyNumber(r.answeredQuestions) ==> w + correct == r.answeredQuestions.value
    ensures !Js.TruthyNumber(r.wrong) && !Js.TruthyNumber(r.answeredQuestions) ==> w == 0
  {
    Js.NumberOr(r.wrong, if Js.TruthyNumber(r.answeredQuestions) then r.answeredQuestions.value - correct else 0)
  }

  /** `percentage || (total > 0 ? Math.round(correct / total * 100) : 0)`. */
  function Percentage(r: ResultRecord, correct: int, total: int): (p: int)
    ensures Js.TruthyNumber(r.percentage) ==> p == r.percentage.value
    ensures !Js.TruthyNumber(r.percentage) && total > 0 ==>
              2 * (100 * correct) - total < 2 * total * p <= 2 * (100 * correct) + total
    ensures !Js.TruthyNumber(r.percentage) && total <= 0 ==> p == 0
  {
    Js.NumberOr(r.percentage, if total > 0 then Js.RoundDiv(100 * correct, total) else 0)
  }

  /** The name cell: `student_name || name || studentName || 'N/A'`; never blank. */
  function NameCell(r: ResultRecord): (s: string)
    ensures s != ""
    ensures Js.TruthyString(r.studentName) ==> s == r.studentName.value
    ensures !Js.TruthyString(r.studentName) && Js.TruthyString(r.legacyName) ==> s == r.legacyName.value
    ensures (!Js.TruthyString(r.studentName) && !Js.TruthyString(r.legacyName)
             && Js.TruthyString(r.legacyStudentName)) ==> s == r.legacyStudentName.value
    ensures (!Js.TruthyString(r.studentName) && !Js.TruthyString(r.legacyName)
             && !Js.TruthyString(r.legacyStudentName)) ==> s == "N/A"
  {
    Js.StringOr(r.studentName, Js.StringOr(r.legacyName, Js.StringOr(r.legacyStudentName, "N/A")))
  }

  /** The class cell: `class_name-section`, else `class-section`, else `full_student_id`, else
      'N/A'; never blank. */
  function ClassCell(r: ResultRecord): (s: string)
    ensures s != ""
    ensures Js.TruthyString(r.className) && Js.TruthyString(r.section) ==>
              s == r.className.value + "-" + r.section.value
    ensures (!(Js.TruthyString(r.className) && Js.TruthyString(r.section))
             && Js.TruthyString(r.legacyClass) && Js.TruthyString(r.section)) ==>
              s == r.legacyClass.value + "-" + r.section.value
    ensures (!(Js.TruthyString(r.className) && Js.TruthyString(r.section))
             && !(Js.TruthyString(r.legacyClass) && Js.TruthyString(r.section))) ==>
              s == Js.StringOr(r.fullStudentId, "N/A")
  {
    if Js.TruthyString(r.className) && Js.TruthyString(r.section) then
      r.className.value + "-" + r.section.value
    else if Js.TruthyString(r.legacyClass) && Js.TruthyString(r.section) then
      r.legacyClass.value + "-" + r.section.value
    else
      Js.StringOr(r.fullStudentId, "N/A")
  }

  /** The quiz cell: `quiz_id || quizName || 'N/A'`; never blank. */
  function QuizCell(r: ResultRecord): (s: string)
    ensures s != ""
    ensures Js.TruthyString(r.quizId) ==> s == r.quizId.value
    ensures !Js.TruthyString(r.quizId) && Js.TruthyString(r.legacyQuizName) ==> s == r.legacyQuizName.value
    ensures !Js.TruthyString(r.quizId) && !Js.TruthyString(r.legacyQuizName) ==> s == "N/A"
  {
    Js.StringOr(r.quizId, Js.StringOr(r.legacyQuizName, "N/A"))
  }

  /** The submitted cell: a date when `submitted_at || submittedAt` is truthy (that value is the
      one formatted), else `date_submitted || 'N/A'` as text. */
  function SubmittedCellOf(r: ResultRecord): (c: SubmittedCell)
    ensures c.LocalDate? <==> Js.TruthyString(r.submittedAt) || Js.TruthyString(r.legacySubmittedAt)
    ensures c.LocalDate? && Js.TruthyString(r.submittedAt) ==> c.source == r.submittedAt.value
    ensures c.LocalDate? && !Js.TruthyString(r.submittedAt) ==> c.source == r.legacySubmittedAt.value
    ensures c.Text? ==> c.text == Js.StringOr(r.dateSubmitted, "N/A")
  {
    if Js.TruthyString(r.submittedAt) || Js.TruthyString(r.legacySubmittedAt) then
      LocalDate(if Js.TruthyString(r.submittedAt) then r.submittedAt.value else r.legacySubmittedAt.value)
    else
      Text(Js.StringOr(r.dateSubmitted, "N/A"))
  }

  /** The row for one result. Whatever fields are present or missing, correct, wrong and
      unanswered add up to the total (unanswered is not clamped and may be negative). */
  function DeriveRow(r: ResultRecord): (row: Row)
    ensures row.total == TotalQuestions(r) && row.total != 0
    ensures row.correct == CorrectAnswers(r) && row.wrong == WrongAnswers(r, row.correct)
    ensures row.answered == row.correct + row.wrong
    ensures row.correct + row.wrong + row.unanswered == row.total
    ensures row.percentage == Percentage(r, row.correct, row.total)
    ensures row.name == NameCell(r) && row.classLabel == ClassCell(r) && row.quiz == QuizCell(r)
    ensures row.submitted == SubmittedCellOf(r)
  {
    var total := TotalQuestions(r);
    var correct := CorrectAnswers(r);
    var wrong := WrongAnswers(r, correct);
    var answered := correct + wrong;
    Row(NameCell(r), ClassCell(r), QuizCell(r), total, correct, wrong, answered, total - answered,
        Percentage(r, correct, total), SubmittedCellOf(r))
  }

  /** Without a stored percentage, a result with every question correct shows 100%, and one
      with none correct shows 0%. */
  lemma DerivedPercentageEnds(r: ResultRecord)
    requires !Js.TruthyNumber(r.percentage) && DeriveRow(r).total > 0
    ensures DeriveRow(r).correct == DeriveRow(r).total ==> DeriveRow(r).percentage == 100
    ensures DeriveRow(r).correct == 0 ==> DeriveRow(r).percentage == 0
  {
    var row := DeriveRow(r);
    if row.correct == row.total {
      Js.RoundDivUnique(100 * row.correct, row.total, 100);
    }
    if row.correct == 0 {
      Js.RoundDivUnique(0, row.total, 0);
    }
  }

  /** Without a stored percentage, a result within the total (0 <= correct <= total) shows a
      percentage within 0..100. */
  lemma DerivedPercentageInRange(r: ResultRecord)
    requires !Js.TruthyNumber(r.percentage) && DeriveRow(r).total > 0
    requires 0 <= DeriveRow(r).correct <= DeriveRow(r).total
    ensures 0 <= DeriveRow(r).percentage <= 100
  {
    var row := DeriveRow(r);
    var t, p := row.total, row.percentage;
    assert 2 * (100 * row.correct) - t < 2 * t * p <= 2 * (100 * row.correct) + t;
    BelowHalfStep(t, p, 100 * row.correct);
  }

  /** `2 * t * p` within `t` of `2 * x`, for `0 <= x <= 100 * t`, pins `p` to 0..100. */
  lemma BelowHalfStep(t: int, p: int, x: int)
    requires t > 0 && 0 <= x <= 100 * t
    requires 2 * x - t < 2 * t * p <= 2 * x + t
    ensures 0 <= p <= 100
  {
    Js.ProductOrder(2 * t, -1, p);
    Js.ProductOrder(2 * t, p, 101);
  }

  /** The dashboard shows only the first ten results, each through `DeriveRow`. */
  function DashboardRows(results: seq<ResultRecord>): (rows: seq<Row>)
    ensures |rows| == if |results| < 10 then |results| else 10
    ensures forall i :: 0 <= i < |rows| ==> rows[i] == DeriveRow(results[i])
  {
    var shown := if |results| < 10 then results else results[..10];
    seq(|shown|, i requires 0 <= i < |shown| => DeriveRow(shown[i]))
  }

  /** The colour band of a displayed percentage. */
  datatype Band = Excellent | Good | Fair | Poor

  /** The band thresholds are tested from the top: >= 80, then >= 60, then >= 40. */
  function PercentageBand(p: int): (b: Band)
    ensures b == Excellent <==> p >= 80
    ensures b == Good <==> 60 <= p < 80
    ensures b == Fair <==> 40 <= p < 60
    ensures b == Poor <==> p < 40
  {
    if p >= 80 then Excellent else if p >= 60 then Good else if p >= 40 then Fair else Poor
  }

  function BandRank(b: Band): nat {
    match b
    case Poor => 0
    case Fair => 1
    case Good => 2
    case Excellent => 3
  }

  /** A higher percentage never lands in a lower band. */
  lemma BandMonotone(p: int, q: int)
    requires p <= q
    ensures BandRank(PercentageBand(p)) <= BandRank(PercentageBand(q))
  {
  }

  /** Background, text colour and border of a band. */
  datatype BandStyle = BandStyle(background: string, color: string, border: string)

  function StyleOf(b: Band): (s: BandStyle)
    ensures b == Excellent ==> s == BandStyle("#bbf7d0", "#14532d", "2px solid #22c55e")
    ensures b == Good ==> s == BandStyle("#fef3c7", "#92400e", "2px solid #eab308")
    ensures b == Fair ==> s == BandStyle("#fed7aa", "#c2410c", "2px solid #f97316")
    ensures b == Poor ==> s == BandStyle("#fecaca", "#991b1b", "2px solid #ef4444")
  {
    match b
    case Excellent => BandStyle("#bbf7d0", "#14532d", "2px solid #22c55e")
    case Good => BandStyle("#fef3c7", "#92400e", "2px solid #eab308")
    case Fair => BandStyle("#fed7aa", "#c2410c", "2px solid #f97316")
    case Poor => BandStyle("#fecaca", "#991b1b", "2px solid #ef4444")
  }

  /** Each band has its own background, so the colour shown identifies the band. */
  lemma StylesDistinguishBands(a: Band, b: Band)
    requires StyleOf(a).background == StyleOf(b).background
    ensures a == b
  {
  }
}
