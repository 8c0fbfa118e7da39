/**
 * One student's answer sheet (frontend/src/pages/StudentAnswerDetails.tsx): the status colour
 * and icon maps, the CORRECT/WRONG cards, the per-option highlight and the "Not Answered" and
 * incorrect-answer rules.
 */
module StudentAnswerDetails {
  import opened Wrappers

  /** One reviewed question as the page receives it. */
  datatype QuestionAnswer = QuestionAnswer(
    questionNumber: int, questionText: string, selectedOption: int, selectedLetter: string,
    correctLetter: string, status: string, isMarked: bool, options: seq<string>)

  const CorrectStatus: string := "CORRECT"
  const WrongStatus: string := "WRONG"
  const UnansweredStatus: string := "UNANSWERED"

  predicate KnownStatus(status: string) {
    status == CorrectStatus || status == WrongStatus || status == UnansweredStatus
  }

  /** `getStatusColor`: green, red, or grey for unanswered and for every other status. */
  function StatusColor(status: string): (c: string)
    ensures status == CorrectStatus ==> c == "text-green-400 bg-green-500/20"
    ensures status == WrongStatus ==> c == "text-red-400 bg-red-500/20"
    ensures status != CorrectStatus && status != WrongStatus ==> c == "text-gray-400 bg-gray-500/20"
  {
    if status == CorrectStatus then "text-green-400 bg-green-500/20"
    else if status == WrongStatus then "text-red-400 bg-red-500/20"
    else if status == UnansweredStatus then "text-gray-400 bg-gray-500/20"
    else "text-gray-400 bg-gray-500/20"
  }

  /** `getStatusIcon`: a check mark, a cross, a white circle, or a question mark for any other status. */
  function StatusIcon(status: string): (icon: string)
    ensures status == CorrectStatus ==> icon == "\U{2705}"
    ensures status == WrongStatus ==> icon == "\U{274C}"
    ensures status == UnansweredStatus ==> icon == "\U{26AA}"
    ensures !KnownStatus(status) ==> icon == "\U{2753}"
  {
    if status == CorrectStatus then "\U{2705}"
    else if status == WrongStatus then "\U{274C}"
    else if status == UnansweredStatus then "\U{26AA}"
    else "\U{2753}"
  }

  /** The icon tells the three known statuses and the unknown ones apart: two statuses share an
      icon exactly when they are equal or both unknown. */
  lemma IconIdentifiesStatus(s: string, t: string)
    ensures StatusIcon(s) == StatusIcon(t) <==> s == t || (!KnownStatus(s) && !KnownStatus(t))
  {
  }

  /** `answers.filter(a => a.status === status).length`. */
  function CountStatus(answers: seq<QuestionAnswer>, status: string): (n: nat)
    ensures n <= |answers|
    ensures n == 0 <==> forall i :: 0 <= i < |answers| ==> answers[i].status != status
  {
    if answers == [] then 0
    else
      var init := answers[..|answers| - 1];
      assert forall i :: 0 <= i < |init| ==> init[i] == answers[i];
      CountStatus(init, status) + (if answers[|answers| - 1].status == status then 1 else 0)
  }

  /** The Correct and Wrong cards together count no more entries than there are answers. */
  lemma {:induction false} CorrectPlusWrongBounded(answers: seq<QuestionAnswer>)
    ensures CountStatus(answers, CorrectStatus) + CountStatus(answers, WrongStatus) <= |answers|
  {
    if answers != [] {
      CorrectPlusWrongBounded(answers[..|answers| - 1]);
    }
  }

  /** `['A', 'B', 'C', 'D'][optIndex]`: `None` (undefined) from the fifth option on. */
  function OptionLetter(optIndex: nat): (l: Option<string>)
    ensures l.Some? <==> optIndex < 4
    ensures l.Some? ==> l.value == [('A' as int + optIndex) as char]
  {
    if optIndex < 4 then Some(["A", "B", "C", "D"][optIndex]) else None
  }

  /** How an option is highlighted. */
  datatype Highlight = SelectedCorrect | SelectedWrong | CorrectOnly | Neutral

  predicate IsSelected(a: QuestionAnswer, optIndex: nat) { optIndex == a.selectedOption }

  /** `optionLetter === correctLetter`: an undefined letter equals no string. */
  predicate IsCorrectOption(a: QuestionAnswer, optIndex: nat) {
    OptionLetter(optIndex) == Some(a.correctLetter)
  }

  /** The option's background: green when selected and correct, red when selected and not
      correct, light green when only correct, neutral otherwise. */
  function OptionHighlight(a: QuestionAnswer, optIndex: nat): (h: Highlight)
    ensures h == SelectedCorrect <==> IsSelected(a, optIndex) && IsCorrectOption(a, optIndex)
    ensures h == SelectedWrong <==> IsSelected(a, optIndex) && !IsCorrectOption(a, optIndex)
    ensures h == CorrectOnly <==> !IsSelected(a, optIndex) && IsCorrectOption(a, optIndex)
    ensures h == Neutral <==> !IsSelected(a, optIndex) && !IsCorrectOption(a, optIndex)
  {
    var isSelected := IsSelected(a, optIndex);
    var isCorrect := IsCorrectOption(a, optIndex);
    if isSelected && isCorrect then SelectedCorrect
    else if isSelected && !isCorrect then SelectedWrong
    else if isCorrect then CorrectOnly
    else Neutral
  }

  /** The highlights of all options of a question, in order. */
  function OptionHighlights(a: QuestionAnswer): (hs: seq<Highlight>)
    ensures |hs| == |a.options|
    ensures forall i :: 0 <= i < |hs| ==> hs[i] == OptionHighlight(a, i)
  {
    seq(|a.options|, i requires 0 <= i < |a.options| => OptionHighlight(a, i))
  }

  predicate ShownSelected(h: Highlight) { h == SelectedCorrect || h == SelectedWrong }

  predicate ShownCorrect(h: Highlight) { h == SelectedCorrect || h == CorrectOnly }

  /** At most one option is shown as selected and at most one as correct, and no option after
      the fourth is ever shown as correct. */
  lemma HighlightsExclusive(a: QuestionAnswer, i: nat, j: nat)
    requires i < |a.options| && j < |a.options|
    ensures ShownSelected(OptionHighlights(a)[i]) && ShownSelected(OptionHighlights(a)[j]) ==> i == j
    ensures ShownCorrect(OptionHighlights(a)[i]) && ShownCorrect(OptionHighlights(a)[j]) ==> i == j
    ensures i >= 4 ==> !ShownCorrect(OptionHighlights(a)[i])
  {
    if ShownCorrect(OptionHighlights(a)[i]) && ShownCorrect(OptionHighlights(a)[j]) {
      assert [('A' as int + i) as char][0] == [('A' as int + j) as char][0];
    }
  }

  /** The "Student's Answer" cell. */
  datatype AnswerCell = NotAnswered | Chosen(letter: string)

  /** "Not Answered" exactly for a negative selected option; otherwise the stored letter. */
  function AnswerCellOf(a: QuestionAnswer): (c: AnswerCell)
    ensures c == NotAnswered <==> a.selectedOption < 0
    ensures c.Chosen? ==> c.letter == a.selectedLetter
  {
    if a.selectedOption >= 0 then Chosen(a.selectedLetter) else NotAnswered
  }

  /** An unanswered question has no option shown as selected. */
  lemma NotAnsweredSelectsNothing(a: QuestionAnswer, i: nat)
    requires AnswerCellOf(a) == NotAnswered && i < |a.options|
    ensures !ShownSelected(OptionHighlights(a)[i])
  {
  }

  /** The incorrect-answer banner is shown exactly for the status 'WRONG'. */
  predicate ShowsIncorrectBanner(a: QuestionAnswer) { a.status == WrongStatus }

  /** The percentage card is green from 60% up and red below. */
  function PercentageColor(percentage: int): (c: string)
    ensures c == "text-green-400" <==> percentage >= 60
    ensures c != "text-green-400" ==> c == "text-red-400"
  {
    if percentage >= 60 then "text-green-400" else "text-red-400"
  }

  /** Every answer that shows the incorrect banner is counted on the Wrong card. */
  lemma BannerCountedAsWrong(answers: seq<QuestionAnswer>, k: nat)
    requires k < |answers| && ShowsIncorrectBanner(answers[k])
    ensures CountStatus(answers, WrongStatus) >= 1
  {
  }
}
