/**
 * The in-progress attempt of the quiz page (frontend/src/pages/QuizPage.tsx): the current
 * question index, the answer map from question number to option label, the set of questions
 * marked for review and the countdown, with the page's handlers; and the two pure helpers
 * `formatTime` and `getQuestionStatus`.
 *
 * Browser effects are fields: `submittedAnswers` is the `quizAnswers` entry written to
 * localStorage, `route` is where `navigate` was last sent, and `window.confirm` is a
 * boolean argument.
 */
module QuizPage {
  import opened Wrappers
  import Js

  datatype QuizQuestion = QuizQuestion(
    questionNumber: int, questionText: string, questionImages: seq<string>, options: seq<string>)

  /** A UTF-16 code unit: what `String.fromCharCode` turns into a one-character string. */
  type CodeUnit = c: int | 0 <= c < 0x1_0000

  /** Where the page has navigated to. */
  datatype Route = QuizScreen | SelectQuiz | Results

  /** The countdown's start: 10 minutes in seconds. */
  const InitialTime: int := 10 * 60

  // ---------------------------------------------------------------------------
  // Pure helpers
  // ---------------------------------------------------------------------------

  /** `String.fromCharCode(65 + index)`: "A" for the first option, "B" for the second, ... */
  function OptionLabel(index: nat): (c: CodeUnit)
    ensures index < 26 ==> c == 'A' as int + index
  {
    (65 + index) % 0x1_0000
  }

  /** Options closer together than 2^16 get different labels. */
  lemma OptionLabelsDistinct(i: nat, j: nat)
    requires i < j < i + 0x1_0000
    ensures OptionLabel(i) != OptionLabel(j)
  {
  }

  /** The palette status of a question. */
  datatype Status = Current | AnsweredMarked | Answered | Marked | NotVisited

  /** `getQuestionStatus`: current before answered-and-marked before answered before marked.
      `current` is the number of the question on screen (`None` before the quiz has loaded).
      An answer is a one-character string, always truthy, so "answered" is membership. */
  function QuestionStatus(questionNumber: int, answers: map<int, CodeUnit>, marked: set<int>,
                          current: Option<int>): (s: Status)
    ensures s == Current <==> current == Some(questionNumber)
    ensures s == AnsweredMarked <==>
              current != Some(questionNumber) && questionNumber in answers && questionNumber in marked
    ensures s == Answered <==>
              current != Some(questionNumber) && questionNumber in answers && questionNumber !in marked
    ensures s == Marked <==>
              current != Some(questionNumber) && questionNumber !in answers && questionNumber in marked
    ensures s == NotVisited <==>
              current != Some(questionNumber) && questionNumber !in answers && questionNumber !in marked
  {
    var isAnswered := questionNumber in answers;
    var isMarked := questionNumber in marked;
    var isCurrent := current == Some(questionNumber);
    if isCurrent then Current
    else if isAnswered && isMarked then AnsweredMarked
    else if isAnswered then Answered
    else if isMarked then Marked
    else NotVisited
  }

  /** `formatTime`: hours, minutes and seconds, each at least two digits, joined by ':'. */
  function FormatTime(seconds: nat): string {
    var h := seconds / 3600;
    var m := (seconds % 3600) / 60;
    var s := seconds % 60;
    Js.PadStart2(Js.NatToString(h)) + ":" + Js.PadStart2(Js.NatToString(m)) + ":"
      + Js.PadStart2(Js.NatToString(s))
  }

  /** A padded field denotes its number and is at least two digits long. */
  lemma FieldValue(n: nat)
    ensures var p := Js.PadStart2(Js.NatToString(n));
            |p| >= 2 && Js.AllDigits(p) && Js.DigitsValue(p) == n
  {
    Js.NatToStringRoundTrip(n);
    Js.PadStart2Value(Js.NatToString(n));
  }

  /** A field below 100 is exactly two digits. */
  lemma SmallFieldLength(n: nat)
    requires n < 100
    ensures |Js.PadStart2(Js.NatToString(n))| == 2
  {
    if n >= 10 {
      var q := n / 10;
      assert Js.NatToString(q) == [Js.DigitChar(q)];
      assert |Js.NatToString(n)| == 2;
    }
  }

  /** Hours, minutes and seconds recompose the duration, minutes and seconds below 60. */
  lemma ClockDecomposition(seconds: nat)
    ensures (seconds % 3600) / 60 < 60 && seconds % 60 < 60
    ensures (seconds / 3600) * 3600 + ((seconds % 3600) / 60) * 60 + seconds % 60 == seconds
  {
    var rest := seconds % 3600;
    assert seconds == (seconds / 3600) * 3600 + rest;
    assert rest == (rest / 60) * 60 + rest % 60;
    assert rest % 60 == seconds % 60 by {
      assert seconds == ((seconds / 3600) * 60) * 60 + rest;
    }
  }

  /** Where the three fields sit in `a:b:c` when the last two are two characters long. */
  lemma ClockSlices(a: string, b: string, c: string)
    requires |b| == 2 && |c| == 2
    ensures var r := a + ":" + b + ":" + c;
            |r| == |a| + 6 && r[|r| - 3] == ':' && r[|r| - 6] == ':'
            && r[..|r| - 6] == a && r[|r| - 5..|r| - 3] == b && r[|r| - 2..] == c
  {
    var r := a + ":" + b + ":" + c;
    assert r[..|r| - 6] == a;
    assert r[|r| - 5..|r| - 3] == b;
    assert r[|r| - 2..] == c;
  }

  /** The three fields of `a:b:c`, each a digit string, read back as their numbers. */
  lemma ClockFields(a: string, b: string, c: string)
    requires |a| >= 2 && |b| == 2 && |c| == 2
    requires Js.AllDigits(a) && Js.AllDigits(b) && Js.AllDigits(c)
    ensures var r := a + ":" + b + ":" + c;
            |r| >= 8 && r[|r| - 3] == ':' && r[|r| - 6] == ':'
            && Js.AllDigits(r[..|r| - 6]) && Js.AllDigits(r[|r| - 5..|r| - 3]) && Js.AllDigits(r[|r| - 2..])
            && Js.DigitsValue(r[..|r| - 6]) == Js.DigitsValue(a)
            && Js.DigitsValue(r[|r| - 5..|r| - 3]) == Js.DigitsValue(b)
            && Js.DigitsValue(r[|r| - 2..]) == Js.DigitsValue(c)
  {
    ClockSlices(a, b, c);
  }

  /** Reading the three fields of `FormatTime(seconds)` back as decimal numbers gives the duration:
      the last two characters are the seconds, the two before the second ':' the minutes, and
      everything before the first ':' the hours (at least two digits). */
  lemma FormatTimeFields(seconds: nat)
    ensures var r := FormatTime(seconds);
            |r| >= 8 && r[|r| - 3] == ':' && r[|r| - 6] == ':'
            && Js.AllDigits(r[..|r| - 6]) && Js.AllDigits(r[|r| - 5..|r| - 3]) && Js.AllDigits(r[|r| - 2..])
            && Js.DigitsValue(r[|r| - 5..|r| - 3]) < 60 && Js.DigitsValue(r[|r| - 2..]) < 60
            && Js.DigitsValue(r[..|r| - 6]) * 3600 + Js.DigitsValue(r[|r| - 5..|r| - 3]) * 60
               + Js.DigitsValue(r[|r| - 2..]) == seconds
  {
    var h, m, s := seconds / 3600, (seconds % 3600) / 60, seconds % 60;
    ClockDecomposition(seconds);
    var hs, ms, ss := Js.PadStart2(Js.NatToString(h)), Js.PadStart2(Js.NatToString(m)),
                      Js.PadStart2(Js.NatToString(s));
    FieldValue(h);
    FieldValue(m);
    FieldValue(s);
    SmallFieldLength(m);
    SmallFieldLength(s);
    ClockFields(hs, ms, ss);
    assert FormatTime(seconds) == hs + ":" + ms + ":" + ss;
  }

  /** The countdown's start is shown as ten minutes. */
  lemma FormatInitialTime()
    ensures FormatTime(InitialTime) == "00:10:00"
  {
    assert InitialTime / 3600 == 0 && (InitialTime % 3600) / 60 == 10 && InitialTime % 60 == 0;
    var zero := Js.NatToString(0);
    assert zero == "0";
    assert Js.NatToString(1) == "1";
    var ten := Js.NatToString(10);
    assert ten == Js.NatToString(1) + [Js.DigitChar(0)] == "10";
    assert Js.PadStart2(zero) == "00" && Js.PadStart2(ten) == "10";
  }

  /** One timer tick: `t - 1` above 1, and 0 from 1 down (the tick that requests a submission). */
  function NextTime(t: int): (r: int)
    ensures t >= 1 ==> 0 <= r < t
    ensures t <= 1 ==> r == 0
  {
    if t <= 1 then 0 else t - 1
  }

  /** `n` ticks applied to `t`. */
  function AfterTicks(t: int, n: nat): int
    decreases n
  {
    if n == 0 then t else AfterTicks(NextTime(t), n - 1)
  }

  /** From any non-negative start the countdown after `n` ticks is `max(0, t - n)`: it never goes
      below zero. */
  lemma {:induction false} AfterTicksValue(t: int, n: nat)
    requires t >= 0
    ensures AfterTicks(t, n) == if t - n > 0 then t - n else 0
  {
    if n > 0 {
      AfterTicksValue(NextTime(t), n - 1);
    }
  }

  /** From the initial 600 seconds, tick number `n` (counting from 1) requests a submission
      exactly when `n >= 600`. */
  lemma AutoSubmitFromInitialTime(n: nat)
    requires n >= 1
    ensures AfterTicks(InitialTime, n - 1) <= 1 <==> n >= InitialTime
  {
    AfterTicksValue(InitialTime, n - 1);
  }

  /** Membership of `x` flipped: what `handleMarkForReview` does to the review set. */
  function Toggled(s: set<int>, x: int): (r: set<int>)
    ensures x in r <==> x !in s
    ensures forall y :: y != x ==> (y in r <==> y in s)
  {
    if x in s then s - {x} else s + {x}
  }

  /** Toggling the same question twice restores the review set. */
  lemma ToggleInvolution(s: set<int>, x: int)
    ensures Toggled(Toggled(s, x), x) == s
  {
  }

  /** The numbers of the loaded questions. */
  function Numbers(qs: seq<QuizQuestion>): set<int> {
    set j | 0 <= j < |qs| :: qs[j].questionNumber
  }

  /** A list has no more distinct question numbers than entries. */
  lemma {:induction false} NumbersBound(qs: seq<QuizQuestion>)
    ensures |Numbers(qs)| <= |qs|
  {
    if qs != [] {
      var init := qs[..|qs| - 1];
      NumbersBound(init);
      assert Numbers(qs) == Numbers(init) + {qs[|qs| - 1].questionNumber} by {
        assert forall j :: 0 <= j < |init| ==> init[j] == qs[j];
      }
    }
  }

  // ---------------------------------------------------------------------------
  // The attempt
  // ---------------------------------------------------------------------------

  class AttemptSession {
    var questions: seq<QuizQuestion>
    var currentQuestionIndex: int
    var answers: map<int, CodeUnit>
    var timeLeft: int
    var markedForReview: set<int>
    var submittedAnswers: Option<map<int, CodeUnit>>
    var route: Route

    /** The index is valid once questions are loaded, the countdown stays in [0, 600], and the
        answer map only names loaded questions. */
    ghost predicate Valid()
      reads this
    {
      && 0 <= currentQuestionIndex
      && (|questions| > 0 ==> currentQuestionIndex < |questions|)
      && 0 <= timeLeft <= InitialTime
      && answers.Keys <= Numbers(questions)
    }

    /** The question on screen, if the quiz has loaded. */
    function CurrentNumber(): (n: Option<int>)
      reads this
      requires Valid()
      ensures |questions| > 0 ==> n == Some(questions[currentQuestionIndex].questionNumber)
      ensures |questions| == 0 ==> n.None?
    {
      if |questions| > 0 then Some(questions[currentQuestionIndex].questionNumber) else None
    }

    /** "Answered" in the progress card. */
    function AnsweredCount(): nat
      reads this
    {
      |answers|
    }

    /** "Remaining" in the progress card: never negative, because answers only name loaded questions. */
    function RemainingCount(): (r: int)
      reads this
      requires Valid()
      ensures r >= 0 && r + AnsweredCount() == |questions|
    {
      NumbersBound(questions);
      assert |answers.Keys| <= |Numbers(questions)| by {
        SubsetCardinality(answers.Keys, Numbers(questions));
      }
      |questions| - |answers|
    }

    /** First render plus the loading effect: with a selected quiz found in the stored quizzes,
        its questions are shown; otherwise the page navigates back to quiz selection. */
    constructor (selectedQuiz: Option<string>, quizzes: map<string, seq<QuizQuestion>>)
      ensures Valid()
      ensures currentQuestionIndex == 0 && answers == map[] && markedForReview == {}
      ensures timeLeft == InitialTime && submittedAnswers.None?
      ensures Js.TruthyString(selectedQuiz) && selectedQuiz.value in quizzes ==>
                questions == quizzes[selectedQuiz.value] && route == QuizScreen
      ensures !(Js.TruthyString(selectedQuiz) && selectedQuiz.value in quizzes) ==>
                questions == [] && route == SelectQuiz
    {
      questions := [];
      currentQuestionIndex := 0;
      answers := map[];
      timeLeft := InitialTime;
      markedForReview := {};
      submittedAnswers := None;
      route := QuizScreen;
      new;
      if !Js.TruthyString(selectedQuiz) {
        route := SelectQuiz;
      } else if selectedQuiz.value !in quizzes {
        route := SelectQuiz;
      } else {
        questions := quizzes[selectedQuiz.value];
      }
    }

    /** The radio button of option `index` of the current question (`handleAnswerSelect` with
        that question's number and the option's label). */
    method SelectOption(index: nat)
      requires Valid() && |questions| > 0
      requires index < |questions[currentQuestionIndex].options|
      modifies this
      ensures Valid()
      ensures answers == old(answers)[old(questions[currentQuestionIndex].questionNumber) := OptionLabel(index)]
      ensures questions == old(questions) && currentQuestionIndex == old(currentQuestionIndex)
      ensures markedForReview == old(markedForReview) && timeLeft == old(timeLeft)
      ensures submittedAnswers == old(submittedAnswers) && route == old(route)
    {
      var qn := questions[currentQuestionIndex].questionNumber;
      answers := answers[qn := OptionLabel(index)];
    }

    /** `handleMarkForReview`: flip the current question's membership in the review set. */
    method MarkForReview()
      requires Valid() && |questions| > 0
      modifies this
      ensures Valid()
      ensures markedForReview == Toggled(old(markedForReview), old(questions[currentQuestionIndex].questionNumber))
      ensures questions == old(questions) && currentQuestionIndex == old(currentQuestionIndex)
      ensures answers == old(answers) && timeLeft == old(timeLeft)
      ensures submittedAnswers == old(submittedAnswers) && route == old(route)
    {
      var qn := questions[currentQuestionIndex].questionNumber;
      if qn in markedForReview {
        markedForReview := markedForReview - {qn};
      } else {
        markedForReview := markedForReview + {qn};
      }
    }

    /** `clearResponse`: delete the current question's answer (nothing if there is none). */
    method ClearResponse()
      requires Valid() && |questions| > 0
      modifies this
      ensures Valid()
      ensures answers == old(answers) - {old(questions[currentQuestionIndex].questionNumber)}
      ensures old(questions[currentQuestionIndex].questionNumber) !in old(answers) ==> answers == old(answers)
      ensures questions == old(questions) && currentQuestionIndex == old(currentQuestionIndex)
      ensures markedForReview == old(markedForReview) && timeLeft == old(timeLeft)
      ensures submittedAnswers == old(submittedAnswers) && route == old(route)
    {
      var qn := questions[currentQuestionIndex].questionNumber;
      answers := answers - {qn};
    }

    /** "Previous": `max(0, i - 1)`. */
    method Previous()
      requires Valid() && |questions| > 0
      modifies this
      ensures Valid()
      ensures currentQuestionIndex == if old(currentQuestionIndex) > 0 then old(currentQuestionIndex) - 1 else 0
      ensures questions == old(questions) && answers == old(answers)
      ensures markedForReview == old(markedForReview) && timeLeft == old(timeLeft)
      ensures submittedAnswers == old(submittedAnswers) && route == old(route)
    {
      currentQuestionIndex := if currentQuestionIndex - 1 > 0 then currentQuestionIndex - 1 else 0;
    }

    /** "Next": `min(len - 1, i + 1)`. */
    method Next()
      requires Valid() && |questions| > 0
      modifies this
      ensures Valid()
      ensures currentQuestionIndex ==
                if old(currentQuestionIndex) < |questions| - 1 then old(currentQuestionIndex) + 1 else |questions| - 1
      ensures questions == old(questions) && answers == old(answers)
      ensures markedForReview == old(markedForReview) && timeLeft == old(timeLeft)
      ensures submittedAnswers == old(submittedAnswers) && route == old(route)
    {
      var last := |questions| - 1;
      currentQuestionIndex := if last < currentQuestionIndex + 1 then last else currentQuestionIndex + 1;
    }

    /** A palette button: jump to the question at `index`. */
    method JumpTo(index: nat)
      requires Valid() && index < |questions|
      modifies this
      ensures Valid()
      ensures currentQuestionIndex == index
      ensures questions == old(questions) && answers == old(answers)
      ensures markedForReview == old(markedForReview) && timeLeft == old(timeLeft)
      ensures submittedAnswers == old(submittedAnswers) && route == old(route)
    {
      currentQuestionIndex := index;
    }

    /** `handleSubmitQuiz`: only a confirmed submission stores the answers and goes to the results. */
    method SubmitQuiz(confirmed: bool)
      requires Valid()
      modifies this
      ensures Valid()
      ensures confirmed ==> submittedAnswers == Some(old(answers)) && route == Results
      ensures !confirmed ==> submittedAnswers == old(submittedAnswers) && route == old(route)
      ensures questions == old(questions) && currentQuestionIndex == old(currentQuestionIndex)
      ensures answers == old(answers) && markedForReview == old(markedForReview)
      ensures timeLeft == old(timeLeft)
    {
      if confirmed {
        submittedAnswers := Some(answers);
        route := Results;
      }
    }

    /** One second of the countdown. At 1 or below it calls `handleSubmitQuiz` (with the user's
        answer to its confirmation) and sets 0; this repeats on every later tick. */
    method Tick(confirmed: bool) returns (submitRequested: bool)
      requires Valid()
      modifies this
      ensures Valid()
      ensures submitRequested <==> old(timeLeft) <= 1
      ensures timeLeft == NextTime(old(timeLeft))
      ensures submitRequested && confirmed ==> submittedAnswers == Some(old(answers)) && route == Results
      ensures !(submitRequested && confirmed) ==>
                submittedAnswers == old(submittedAnswers) && route == old(route)
      ensures questions == old(questions) && currentQuestionIndex == old(currentQuestionIndex)
      ensures answers == old(answers) && markedForReview == old(markedForReview)
    {
      if timeLeft <= 1 {
        SubmitQuiz(confirmed);
        timeLeft := 0;
        submitRequested := true;
      } else {
        timeLeft := timeLeft - 1;
        submitRequested := false;
      }
    }
  }

  /** A subset is no larger than its superset. */
  lemma SubsetCardinality(a: set<int>, b: set<int>)
    requires a <= b
    ensures |a| <= |b|
  {
    assert b == a + (b - a);
  }
}
