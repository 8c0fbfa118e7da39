/**
 * The backend's scoring and result store (backend/main.py): the letter mapping of answers,
 * `calculate_score`, the record `submit_quiz` builds and appends, the summary of
 * `get_all_results`, and the letter normalisation `load_results` applies to stored details.
 *
 * The model follows the code as written: the correct counter is never incremented, a
 * question without `correct_answer` has the letter "X", which an out-of-range selection
 * also maps to, and an empty quiz makes the score a division by zero.
 */
module Scoring {
  import opened Wrappers

  /** The exceptions the backend raises on these paths. */
  datatype Error =
    | QuizNotFound       // HTTP 404 from the quiz loader
    | IndexError         // ["A", "B", "C", "D"][i] with i outside -4..3
    | KeyError           // a stored detail without "correctAnswer"
    | ZeroDivisionError  // the score of a quiz with no questions

  /** The `correct_answer` field of a question as decoded from the quiz file
      (`OtherValue` stands for null, floats, lists and objects; a bool is an int in Python). */
  datatype RawAnswer = Missing | IntValue(i: int) | StrValue(s: string) | OtherValue

  /** The `correctAnswer` a detail entry carries: a string, or a value that is not one. */
  datatype AnswerValue = Str(s: string) | NonString

  datatype Question = Question(
    questionNumber: int,
    correctAnswer: RawAnswer,
    questionText: Option<string>,
    options: Option<seq<string>>)

  datatype StudentAnswer = StudentAnswer(
    questionNumber: int, selectedOption: int, timeSpent: real, isMarked: bool)

  datatype QuizSubmission = QuizSubmission(
    studentName: string, studentEmail: string, quizName: string,
    answers: seq<StudentAnswer>, totalTimeSpent: string, submittedAt: string)

  datatype QuestionResult = QuestionResult(
    questionNumber: int, questionText: string, selectedOption: int,
    correctAnswer: AnswerValue, isCorrect: bool, timeSpent: real, isMarked: bool,
    options: seq<string>)

  datatype StudentResult = StudentResult(
    studentName: string, studentEmail: string, quizName: string,
    totalQuestions: int, answeredQuestions: int, correctAnswers: int, score: real,
    timeSpent: string, submittedAt: string, detailedResults: seq<QuestionResult>)

  /** What `calculate_score` returns. */
  datatype ScoreData = ScoreData(correct: int, total: int, details: seq<QuestionResult>)

  /** A detail entry as read back from the results file, before normalisation. */
  datatype StoredDetail = StoredDetail(
    questionNumber: int, questionText: string, selectedOption: int,
    correctAnswer: RawAnswer, isCorrect: bool, timeSpent: real, isMarked: bool,
    options: seq<string>)

  datatype StoredRecord = StoredRecord(
    studentName: string, studentEmail: string, quizName: string,
    totalQuestions: int, answeredQuestions: int, correctAnswers: int, score: real,
    timeSpent: string, submittedAt: string, detailedResults: seq<StoredDetail>)

  /** The reply of `get_all_results` without the record list itself. */
  datatype Summary = Summary(totalStudents: nat, averageScore: real)

  const Letters: seq<string> := ["A", "B", "C", "D"]

  // ---------------------------------------------------------------------------
  // Letter mapping
  // ---------------------------------------------------------------------------

  /** `["A", "B", "C", "D"][i]` with Python's indexing: negative indices count from the end. */
  function LetterAt(i: int): (r: Result<string, Error>)
    ensures r.Success? <==> -4 <= i < 4
    ensures r.Failure? ==> r.error == IndexError
    ensures r.Success? ==> r.value in Letters
  {
    if 0 <= i < 4 then Success(Letters[i])
    else if -4 <= i < 0 then Success(Letters[i + 4])
    else Failure(IndexError)
  }

  /** Distinct non-negative indices give distinct letters, and `i - 4` names the same letter as `i`. */
  lemma LetterAtAliases(i: int, j: int)
    requires 0 <= i < 4 && 0 <= j < 4
    ensures LetterAt(i) == LetterAt(j) <==> i == j
    ensures LetterAt(i - 4) == LetterAt(i)
  {
  }

  /** The letter of `selectedOption`: "A".."D" for 0..3, "X" for anything else. */
  function SelectedLetter(option: int): (r: string)
    ensures 0 <= option <= 3 ==> r == Letters[option]
    ensures !(0 <= option <= 3) ==> r == "X"
  {
    if 0 <= option <= 3 then Letters[option] else "X"
  }

  /** The letter of `correct_answer`: a missing value is "X", an int is a list index, any other
      value is kept as it is. */
  function CorrectLetter(raw: RawAnswer): (r: Result<AnswerValue, Error>)
    ensures r.Failure? <==> raw.IntValue? && !(-4 <= raw.i < 4)
    ensures raw.Missing? ==> r == Success(Str("X"))
    ensures raw.StrValue? ==> r == Success(Str(raw.s))
    ensures raw.OtherValue? ==> r == Success(NonString)
  {
    match raw
    case Missing => Success(Str("X"))
    case IntValue(i) =>
      (match LetterAt(i)
       case Success(l) => Success(Str(l))
       case Failure(e) => Failure(e))
    case StrValue(s) => Success(Str(s))
    case OtherValue => Success(NonString)
  }

  /** `is_correct`: the two letters are equal. */
  predicate IsCorrect(correct: AnswerValue, selectedOption: int) {
    correct == Str(SelectedLetter(selectedOption))
  }

  /** For an int answer key within 0..3 and a selection within 0..3, the verdict is index equality;
      a negative key -4..-1 matches the selection four above it. */
  lemma IntKeyVerdict(key: int, option: int)
    requires -4 <= key < 4 && 0 <= option <= 3
    ensures CorrectLetter(IntValue(key)).Success?
    ensures IsCorrect(CorrectLetter(IntValue(key)).value, option)
            <==> (if key >= 0 then key == option else key + 4 == option)
  {
  }

  /** A question without `correct_answer` counts an out-of-range selection as correct ("X" == "X"),
      and any in-range selection as wrong. */
  lemma MissingKeyVerdict(option: int)
    ensures IsCorrect(CorrectLetter(Missing).value, option) <==> !(0 <= option <= 3)
  {
  }

  // ---------------------------------------------------------------------------
  // calculate_score
  // ---------------------------------------------------------------------------

  /** The numbers of the questions in `qs`. */
  function Numbers(qs: seq<Question>): set<int> {
    set j | 0 <= j < |qs| :: qs[j].questionNumber
  }

  /** `{q["questionNumber"]: q for q in questions}`: built left to right, so a later question
      replaces an earlier one with the same number. */
  function QuestionMap(qs: seq<Question>): (m: map<int, Question>)
    ensures m.Keys == Numbers(qs)
    ensures forall n :: n in m ==> m[n].questionNumber == n
  {
    if qs == [] then map[]
    else
      var init := qs[..|qs| - 1];
      var last := qs[|qs| - 1];
      assert Numbers(qs) == Numbers(init) + {last.questionNumber} by {
        assert forall j :: 0 <= j < |init| ==> init[j] == qs[j];
      }
      QuestionMap(init)[last.questionNumber := last]
  }

  /** The map holds, for every number, the LAST question in the list with that number. */
  lemma {:induction false} QuestionMapLastWins(qs: seq<Question>, j: nat)
    requires j < |qs|
    requires forall k :: j < k < |qs| ==> qs[k].questionNumber != qs[j].questionNumber
    ensures qs[j].questionNumber in QuestionMap(qs)
    ensures QuestionMap(qs)[qs[j].questionNumber] == qs[j]
  {
    if j < |qs| - 1 {
      var init := qs[..|qs| - 1];
      QuestionMapLastWins(init, j);
    }
  }

  /** True when scoring `a` raises: its question exists and the int answer key is out of range. */
  predicate Raises(a: StudentAnswer, qmap: map<int, Question>) {
    a.questionNumber in qmap && CorrectLetter(qmap[a.questionNumber].correctAnswer).Failure?
  }

  /** The detail entry for answer `a` to question `q`. */
  function Detail(a: StudentAnswer, q: Question): (d: QuestionResult)
    requires CorrectLetter(q.correctAnswer).Success?
    ensures d.questionNumber == a.questionNumber && d.selectedOption == a.selectedOption
    ensures d.isCorrect <==> IsCorrect(d.correctAnswer, a.selectedOption)
    ensures d.timeSpent == a.timeSpent && d.isMarked == a.isMarked
    ensures d.correctAnswer == CorrectLetter(q.correctAnswer).value
    ensures d.questionText == q.questionText.GetOr("") && d.options == q.options.GetOr([])
  {
    var correct := CorrectLetter(q.correctAnswer).value;
    QuestionResult(
      a.questionNumber, q.questionText.GetOr(""), a.selectedOption, correct,
      correct == Str(SelectedLetter(a.selectedOption)), a.timeSpent, a.isMarked,
      q.options.GetOr([]))
  }

  /** The detail entries for `answers`, in their order, skipping answers to unknown questions. */
  function Details(answers: seq<StudentAnswer>, qmap: map<int, Question>): (ds: seq<QuestionResult>)
    requires forall k :: 0 <= k < |answers| ==> !Raises(answers[k], qmap)
    ensures |ds| <= |answers|
    ensures forall i :: 0 <= i < |ds| ==> ds[i].questionNumber in qmap
  {
    if answers == [] then []
    else
      var init := answers[..|answers| - 1];
      var a := answers[|answers| - 1];
      var rest := Details(init, qmap);
      assert !Raises(answers[|answers| - 1], qmap);
      if a.questionNumber in qmap then rest + [Detail(a, qmap[a.questionNumber])] else rest
  }

  /** The question numbers of the answers that name a known question, in order. */
  function KnownNumbers(answers: seq<StudentAnswer>, qmap: map<int, Question>): seq<int> {
    if answers == [] then []
    else
      var a := answers[|answers| - 1];
      KnownNumbers(answers[..|answers| - 1], qmap) + (if a.questionNumber in qmap then [a.questionNumber] else [])
  }

  function DetailNumbers(ds: seq<QuestionResult>): seq<int> {
    seq(|ds|, i requires 0 <= i < |ds| => ds[i].questionNumber)
  }

  /** The details follow the answers: one entry per answer to a known question, in answer order. */
  lemma {:induction false} DetailsFollowAnswers(answers: seq<StudentAnswer>, qmap: map<int, Question>)
    requires forall k :: 0 <= k < |answers| ==> !Raises(answers[k], qmap)
    ensures DetailNumbers(Details(answers, qmap)) == KnownNumbers(answers, qmap)
  {
    if answers != [] {
      var init := answers[..|answers| - 1];
      DetailsFollowAnswers(init, qmap);
    }
  }

  /** Splicing an answer that cannot raise between two lists that cannot raise gives a list that
      cannot raise, both with and without it. */
  lemma NoRaisesSplice(before: seq<StudentAnswer>, a: StudentAnswer, after: seq<StudentAnswer>, qmap: map<int, Question>)
    requires !Raises(a, qmap)
    requires forall k :: 0 <= k < |before| ==> !Raises(before[k], qmap)
    requires forall k :: 0 <= k < |after| ==> !Raises(after[k], qmap)
    ensures forall k :: 0 <= k < |before + [a] + after| ==> !Raises((before + [a] + after)[k], qmap)
    ensures forall k :: 0 <= k < |before + after| ==> !Raises((before + after)[k], qmap)
  {
    var s := before + [a] + after;
    forall k | 0 <= k < |s| ensures !Raises(s[k], qmap) {
      if k < |before| { assert s[k] == before[k]; }
      else if k > |before| { assert s[k] == after[k - |before| - 1]; }
    }
    forall k | 0 <= k < |before + after| ensures !Raises((before + after)[k], qmap) {
      if k < |before| { assert (before + after)[k] == before[k]; }
      else { assert (before + after)[k] == after[k - |before|]; }
    }
  }

  /** An answer to a question that is not in the quiz changes nothing, wherever it stands. */
  lemma {:induction false} UnknownAnswerIgnored(
    before: seq<StudentAnswer>, a: StudentAnswer, after: seq<StudentAnswer>, qmap: map<int, Question>)
    requires a.questionNumber !in qmap
    requires forall k :: 0 <= k < |before| ==> !Raises(before[k], qmap)
    requires forall k :: 0 <= k < |after| ==> !Raises(after[k], qmap)
    ensures forall k :: 0 <= k < |before + [a] + after| ==> !Raises((before + [a] + after)[k], qmap)
    ensures Details(before + [a] + after, qmap) == Details(before + after, qmap)
  {
    NoRaisesSplice(before, a, after, qmap);
    var s := before + [a] + after;
    if after == [] {
      assert s[..|s| - 1] == before;
      assert before + after == before;
    } else {
      var init := after[..|after| - 1];
      assert forall k :: 0 <= k < |init| ==> init[k] == after[k];
      UnknownAnswerIgnored(before, a, init, qmap);
      assert s[..|s| - 1] == before + [a] + init;
      assert (before + after)[..|before + after| - 1] == before + init;
      assert s[|s| - 1] == after[|after| - 1] == (before + after)[|before + after| - 1];
    }
  }

  /** `calculate_score`: one detail entry per answer to a known question; the correct counter is
      initialised and never incremented; `total` is the number of questions in the list. */
  method CalculateScore(answers: seq<StudentAnswer>, questions: seq<Question>)
    returns (r: Result<ScoreData, Error>)
    ensures r.Failure? <==> exists k :: 0 <= k < |answers| && Raises(answers[k], QuestionMap(questions))
    ensures r.Failure? ==> r.error == IndexError
    ensures r.Success? ==> r.value.correct == 0 && r.value.total == |questions|
    ensures r.Success? ==> r.value.details == Details(answers, QuestionMap(questions))
  {
    var qmap := QuestionMap(questions);
    var correct := 0;
    var details: seq<QuestionResult> := [];
    var i := 0;
    while i < |answers|
      invariant 0 <= i <= |answers|
      invariant forall k :: 0 <= k < i ==> !Raises(answers[k], qmap)
      invariant details == Details(answers[..i], qmap)
    {
      var a := answers[i];
      assert answers[..i + 1][..i] == answers[..i];
      if a.questionNumber !in qmap {
        i := i + 1;
        continue;
      }
      var q := qmap[a.questionNumber];
      var letter := CorrectLetter(q.correctAnswer);
      if letter.Failure? {
        return Failure(letter.error);
      }
      details := details + [Detail(a, q)];
      i := i + 1;
    }
    assert answers[..i] == answers;
    return Success(ScoreData(correct, |questions|, details));
  }

  // ---------------------------------------------------------------------------
  // submit_quiz and the in-memory result list
  // ---------------------------------------------------------------------------

  /** The record `submit_quiz` appends, or the exception it raises. `quiz` is what the quiz loader
      returns (`None`: the 404 it raises for an unknown quiz name). */
  function SubmitRecord(data: QuizSubmission, quiz: Option<seq<Question>>): (r: Result<StudentResult, Error>)
    ensures quiz.None? ==> r == Failure(QuizNotFound)
    ensures quiz == Some([]) ==> r == Failure(ZeroDivisionError)
    ensures r.Success? ==> quiz.Some? && r.value.totalQuestions == |quiz.value| > 0
    ensures r.Success? ==> r.value.correctAnswers == 0 && r.value.score == 0.0
    ensures r.Success? ==> r.value.answeredQuestions == |data.answers|
    ensures r.Success? ==> |r.value.detailedResults| <= r.value.answeredQuestions
    ensures quiz.Some? && |quiz.value| > 0 ==>
              (r.Failure? <==> exists k :: 0 <= k < |data.answers| && Raises(data.answers[k], QuestionMap(quiz.value)))
    ensures r.Failure? && quiz.Some? && |quiz.value| > 0 ==> r.error == IndexError
    ensures r.Success? ==> r.value.detailedResults == Details(data.answers, QuestionMap(quiz.value))
    ensures r.Success? ==> r.value.studentName == data.studentName && r.value.studentEmail == data.studentEmail
                           && r.value.quizName == data.quizName && r.value.timeSpent == data.totalTimeSpent
                           && r.value.submittedAt == data.submittedAt
  {
    match quiz
    case None => Failure(QuizNotFound)
    case Some(qs) =>
      var qmap := QuestionMap(qs);
      if exists k :: 0 <= k < |data.answers| && Raises(data.answers[k], qmap) then Failure(IndexError)
      else if |qs| == 0 then Failure(ZeroDivisionError)
      else
        var correct := 0;
        Success(StudentResult(
          data.studentName, data.studentEmail, data.quizName, |qs|, |data.answers|, correct,
          (correct as real / |qs| as real) * 100.0, data.totalTimeSpent, data.submittedAt,
          Details(data.answers, qmap)))
  }

  /** The mean of the scores as an exact quotient (the two-decimal rounding is left out). */
  function Average(results: seq<StudentResult>): (avg: real)
  {
    if |results| == 0 then 0.0 else SumScores(results) / |results| as real
  }

  function SumScores(results: seq<StudentResult>): real {
    if results == [] then 0.0 else SumScores(results[..|results| - 1]) + results[|results| - 1].score
  }

  /** `get_all_results`: the number of records and their mean score, 0 for an empty list. */
  function AllResultsSummary(results: seq<StudentResult>): (s: Summary)
    ensures s.totalStudents == |results|
    ensures |results| == 0 ==> s.averageScore == 0.0
  {
    Summary(|results|, Average(results))
  }

  /** The sum of scores that all lie in [lo, hi] lies in [n * lo, n * hi]. */
  lemma {:induction false} SumScoresBounds(results: seq<StudentResult>, lo: real, hi: real)
    requires forall i :: 0 <= i < |results| ==> lo <= results[i].score <= hi
    ensures |results| as real * lo <= SumScores(results) <= |results| as real * hi
  {
    if results != [] {
      SumScoresBounds(results[..|results| - 1], lo, hi);
    }
  }

  /** The mean score lies between the lowest and the highest score. */
  lemma AverageWithinBounds(results: seq<StudentResult>, lo: real, hi: real)
    requires |results| > 0
    requires forall i :: 0 <= i < |results| ==> lo <= results[i].score <= hi
    ensures lo <= AllResultsSummary(results).averageScore <= hi
  {
    SumScoresBounds(results, lo, hi);
    var n := |results| as real;
    assert SumScores(results) / n >= lo by {
      assert SumScores(results) >= n * lo;
    }
    assert SumScores(results) / n <= hi by {
      assert SumScores(results) <= n * hi;
    }
  }

  /** Results that all come from `submit_quiz` have score 0, so their average is 0. */
  lemma SubmittedAverageIsZero(results: seq<StudentResult>)
    requires forall i :: 0 <= i < |results| ==> results[i].score == 0.0
    ensures AllResultsSummary(results).averageScore == 0.0
  {
    if |results| > 0 {
      AverageWithinBounds(results, 0.0, 0.0);
    }
  }

  // ---------------------------------------------------------------------------
  // load_results: int answer keys in stored details become letters
  // ---------------------------------------------------------------------------

  /** The stored detail with an int `correctAnswer` replaced by its letter. */
  function NormalizeDetail(d: StoredDetail): (r: Result<QuestionResult, Error>)
    ensures d.correctAnswer.Missing? ==> r == Failure(KeyError)
    ensures d.correctAnswer.IntValue? ==>
              (r.Success? <==> -4 <= d.correctAnswer.i < 4)
    ensures d.correctAnswer.IntValue? && 0 <= d.correctAnswer.i < 4 ==>
              r.Success? && r.value.correctAnswer == Str(Letters[d.correctAnswer.i])
    ensures d.correctAnswer.StrValue? ==> r.Success? && r.value.correctAnswer == Str(d.correctAnswer.s)
    ensures r.Success? ==>
              r.value == QuestionResult(d.questionNumber, d.questionText, d.selectedOption,
                                        r.value.correctAnswer, d.isCorrect, d.timeSpent, d.isMarked, d.options)
  {
    var value: Result<AnswerValue, Error> :=
      match d.correctAnswer
      case Missing => Failure(KeyError)
      case IntValue(i) => (match LetterAt(i) case Success(l) => Success(Str(l)) case Failure(e) => Failure(e))
      case StrValue(s) => Success(Str(s))
      case OtherValue => Success(NonString);
    match value
    case Failure(e) => Failure(e)
    case Success(v) =>
      Success(QuestionResult(d.questionNumber, d.questionText, d.selectedOption, v, d.isCorrect,
                             d.timeSpent, d.isMarked, d.options))
  }

  /** How `save_results` writes a detail entry (a string `correctAnswer` stays a string). */
  function StoreDetail(d: QuestionResult): StoredDetail {
    StoredDetail(d.questionNumber, d.questionText, d.selectedOption,
                 match d.correctAnswer case Str(s) => StrValue(s) case NonString => OtherValue,
                 d.isCorrect, d.timeSpent, d.isMarked, d.options)
  }

  /** Saving a detail and loading it back gives the same detail. */
  lemma StoreThenNormalize(d: QuestionResult)
    ensures NormalizeDetail(StoreDetail(d)) == Success(d)
  {
  }

  predicate RecordLoads(r: StoredRecord) {
    forall k :: 0 <= k < |r.detailedResults| ==> NormalizeDetail(r.detailedResults[k]).Success?
  }

  /** The record `StudentResult(**r)` builds once every detail is normalised. */
  function NormalizeRecord(r: StoredRecord): (s: StudentResult)
    requires RecordLoads(r)
    ensures |s.detailedResults| == |r.detailedResults|
    ensures forall k :: 0 <= k < |s.detailedResults| ==>
              Success(s.detailedResults[k]) == NormalizeDetail(r.detailedResults[k])
    ensures s.score == r.score && s.totalQuestions == r.totalQuestions
    ensures s.studentName == r.studentName && s.studentEmail == r.studentEmail && s.quizName == r.quizName
    ensures s.answeredQuestions == r.answeredQuestions && s.correctAnswers == r.correctAnswers
    ensures s.timeSpent == r.timeSpent && s.submittedAt == r.submittedAt
  {
    StudentResult(r.studentName, r.studentEmail, r.quizName, r.totalQuestions,
                  r.answeredQuestions, r.correctAnswers, r.score, r.timeSpent, r.submittedAt,
                  seq(|r.detailedResults|, k requires 0 <= k < |r.detailedResults| =>
                        NormalizeDetail(r.detailedResults[k]).value))
  }

  /** The records `load_results` appends, one per stored record, in order. */
  function NormalizeAll(rs: seq<StoredRecord>): (out: seq<StudentResult>)
    requires forall k :: 0 <= k < |rs| ==> RecordLoads(rs[k])
    ensures |out| == |rs|
    ensures forall k :: 0 <= k < |rs| ==> out[k] == NormalizeRecord(rs[k])
  {
    seq(|rs|, k requires 0 <= k < |rs| => NormalizeRecord(rs[k]))
  }

  /** The process-wide `student_results` list. */
  class ResultStore {
    var results: seq<StudentResult>

    constructor ()
      ensures results == []
    {
      results := [];
    }

    /** `submit_quiz`: score the submission, build the record and append it; the reply is the score.
        Any exception leaves the list as it was. */
    method Submit(data: QuizSubmission, quiz: Option<seq<Question>>) returns (r: Result<real, Error>)
      modifies this
      ensures SubmitRecord(data, quiz).Success? ==>
                results == old(results) + [SubmitRecord(data, quiz).value]
                && r == Success(SubmitRecord(data, quiz).value.score)
      ensures SubmitRecord(data, quiz).Failure? ==>
                results == old(results) && r == Failure(SubmitRecord(data, quiz).error)
    {
      if quiz.None? {
        return Failure(QuizNotFound);
      }
      var questions := quiz.value;
      var scoreData := CalculateScore(data.answers, questions);
      if scoreData.Failure? {
        return Failure(scoreData.error);
      }
      var sd := scoreData.value;
      if sd.total == 0 {
        return Failure(ZeroDivisionError);
      }
      var result := StudentResult(
        data.studentName, data.studentEmail, data.quizName, sd.total, |data.answers|,
        sd.correct, (sd.correct as real / sd.total as real) * 100.0, data.totalTimeSpent,
        data.submittedAt, sd.details);
      results := results + [result];
      return Success(result.score);
    }

    /** `load_results`: append every stored record with its details normalised. The first record
        that fails to normalise raises, after the records before it were appended. */
    method Load(stored: seq<StoredRecord>) returns (err: Option<Error>)
      modifies this
      ensures err.None? <==> forall k :: 0 <= k < |stored| ==> RecordLoads(stored[k])
      ensures err.None? ==> results == old(results) + NormalizeAll(stored)
      ensures err.Some? ==> exists k :: 0 <= k < |stored| && !RecordLoads(stored[k])
                              && (forall j :: 0 <= j < k ==> RecordLoads(stored[j]))
                              && results == old(results) + NormalizeAll(stored[..k])
    {
      var i := 0;
      while i < |stored|
        invariant 0 <= i <= |stored|
        invariant forall j :: 0 <= j < i ==> RecordLoads(stored[j])
        invariant results == old(results) + NormalizeAll(stored[..i])
      {
        var r := stored[i];
        var details: seq<QuestionResult> := [];
        var k := 0;
        while k < |r.detailedResults|
          invariant 0 <= k <= |r.detailedResults|
          invariant |details| == k
          invariant forall m :: 0 <= m < k ==> Success(details[m]) == NormalizeDetail(r.detailedResults[m])
        {
          var d := NormalizeDetail(r.detailedResults[k]);
          if d.Failure? {
            return Some(d.error);
          }
          details := details + [d.value];
          k := k + 1;
        }
        var loaded := StudentResult(r.studentName, r.studentEmail, r.quizName, r.totalQuestions,
                                    r.answeredQuestions, r.correctAnswers, r.score, r.timeSpent,
                                    r.submittedAt, details);
        assert loaded == NormalizeRecord(r);
        assert NormalizeAll(stored[..i + 1]) == NormalizeAll(stored[..i]) + [loaded];
        results := results + [loaded];
        i := i + 1;
      }
      assert stored[..i] == stored;
      return None;
    }
  }
}
