/**
 * The name page before an attempt (frontend/src/pages/StudentName.tsx): the typed name is
 * accepted once trimming leaves something, and the trimmed name is what gets stored.
 */
module StudentName {
  import opened Wrappers
  import Js

  /** What pressing Start does: an alert without storing anything, or storing this name and
      moving on to the quiz. */
  datatype StartOutcome = Rejected | Started(storedName: string)

  /** `handleStartQuiz`: rejected exactly when the trimmed input is empty; otherwise the stored
      name is non-empty, trimmed, and the trim of the input. */
  function StartQuiz(input: string): (o: StartOutcome)
    ensures o.Rejected? <==> Js.AllWhitespace(input)
    ensures o.Started? ==> o.storedName == Js.Trim(input) && o.storedName != "" && Js.IsTrimmed(o.storedName)
  {
    var trimmed := Js.Trim(input);
    if trimmed == "" then Rejected else Started(trimmed)
  }

  /** Trimming the stored name again changes nothing, so the quiz page sees the name as stored. */
  lemma StoredNameIsStable(input: string)
    requires StartQuiz(input).Started?
    ensures Js.Trim(StartQuiz(input).storedName) == StartQuiz(input).storedName
  {
    Js.TrimIdempotent(input);
  }

  /** Surrounding whitespace never changes the outcome. */
  lemma SurroundingWhitespaceIgnored(pre: string, input: string, post: string)
    requires Js.AllWhitespace(pre) && Js.AllWhitespace(post)
    ensures StartQuiz(pre + input + post) == StartQuiz(input)
  {
    Js.TrimPadded(pre, input, post);
  }

  /** The Start button is disabled exactly when pressing it would be rejected. */
  predicate StartDisabled(input: string) {
    Js.Trim(input) == ""
  }

  lemma DisabledIffRejected(input: string)
    ensures StartDisabled(input) <==> StartQuiz(input).Rejected?
  {
  }

  /** A key press in the name field: Enter runs the same handler as the button, other keys
      nothing (`None`). */
  function KeyPress(key: string, input: string): (r: Option<StartOutcome>)
    ensures r.Some? <==> key == "Enter"
    ensures r.Some? ==> r.value == StartQuiz(input)
  {
    if key == "Enter" then Some(StartQuiz(input)) else None
  }

  /** The quiz name shown on the page: the stored selection, or "Unknown Quiz"; never blank. */
  function DisplayedQuiz(selectedQuiz: Option<string>): (name: string)
    ensures name != ""
    ensures Js.TruthyString(selectedQuiz) ==> name == selectedQuiz.value
    ensures !Js.TruthyString(selectedQuiz) ==> name == "Unknown Quiz"
  {
    Js.StringOr(selectedQuiz, "Unknown Quiz")
  }
}
