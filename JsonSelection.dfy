/**
 * The quiz selection page (frontend/src/pages/JsonSelection.tsx): the predefined quizzes are
 * fetched one known file at a time, failures skipped, and merged with the uploaded quizzes of
 * localStorage, the uploaded ones winning; picking a card records that quiz for the attempt.
 * Each fetch is a parameter: what the request for the i-th known file returned.
 */
module JsonSelection {
  import opened Wrappers
  import Js
  import opened QuizStore

  /** The fixed list of predefined quiz files. */
  const KnownQuizFiles: seq<string> := [
    "JEE.json",
    "NEET-2025-Code-48.json",
    "7th std Maths.json",
    "7th std Science.json",
    "Number_System_7th_std.json",
    "Measurement_7th_std.json",
    "Demo-Quizz.json"
  ]

  /** The quiz names the known files are served under. */
  lemma KnownQuizNames()
    ensures forall i :: 0 <= i < |KnownQuizFiles| ==>
              QuizName(KnownQuizFiles[i]) == ["JEE", "NEET-2025-Code-48", "7th std Maths", "7th std Science",
                                              "Number_System_7th_std", "Measurement_7th_std", "Demo-Quizz"][i]
  {
    var bases := ["JEE", "NEET-2025-Code-48", "7th std Maths", "7th std Science",
                  "Number_System_7th_std", "Measurement_7th_std", "Demo-Quizz"];
    forall i | 0 <= i < |KnownQuizFiles|
      ensures QuizName(KnownQuizFiles[i]) == bases[i]
    {
      assert KnownQuizFiles[i] == bases[i] + JsonSuffix;
      DotlessBaseName(bases[i]);
    }
  }

  /** What one request produced: it threw (network error or a body that is not JSON), answered
      with a non-ok status, or answered ok with this decoded body. */
  datatype FetchOutcome = Threw | NotOk | Ok(body: Js.Json)

  /** The value stored for a fetched file: `quizData.questions`, or `None` when that lookup throws
      (a `null` body), which the per-file catch skips. A body without `questions` is stored as
      `undefined`. */
  function LoadedQuestions(outcome: FetchOutcome): (r: Option<Js.Json>)
    ensures r.Some? <==> outcome.Ok? && !(outcome.body.JNull? || outcome.body.JUndefined?)
    ensures outcome.Ok? && outcome.body.JObject? && "questions" in outcome.body.fields ==>
              r == Some(outcome.body.fields["questions"])
    ensures r.Some? && !(outcome.body.JObject? && "questions" in outcome.body.fields) ==>
              r == Some(Js.JUndefined)
  {
    match outcome
    case Ok(body) => Js.Property(body, "questions")
    case _ => None
  }

  /** The predefined map after the first `|outcomes|` files (a later file of the same quiz name
      overwrites an earlier one). */
  function Predefined(files: seq<string>, outcomes: seq<FetchOutcome>): map<string, Js.Json>
    requires |outcomes| == |files|
  {
    if files == [] then map[]
    else
      var n := |files| - 1;
      var before := Predefined(files[..n], outcomes[..n]);
      match LoadedQuestions(outcomes[n])
      case Some(v) => before[QuizName(files[n]) := v]
      case None => before
  }

  /** A quiz name is predefined exactly when some file of that name loaded; failures do not stop
      later files from loading. */
  lemma {:induction false} PredefinedKeys(files: seq<string>, outcomes: seq<FetchOutcome>, name: string)
    requires |outcomes| == |files|
    ensures name in Predefined(files, outcomes) <==>
              exists i :: 0 <= i < |files| && QuizName(files[i]) == name && LoadedQuestions(outcomes[i]).Some?
  {
    if files != [] {
      var n := |files| - 1;
      PredefinedKeys(files[..n], outcomes[..n], name);
      if name in Predefined(files, outcomes) && !(name in Predefined(files[..n], outcomes[..n])) {
        assert QuizName(files[n]) == name && LoadedQuestions(outcomes[n]).Some?;
      }
      if exists i :: 0 <= i < |files| && QuizName(files[i]) == name && LoadedQuestions(outcomes[i]).Some? {
        var i :| 0 <= i < |files| && QuizName(files[i]) == name && LoadedQuestions(outcomes[i]).Some?;
        if i < n {
          assert files[..n][i] == files[i] && outcomes[..n][i] == outcomes[i];
        }
      }
    }
  }

  /** The quiz stored under a file's name is what that file loaded, when no later file of the
      same name loaded. */
  lemma {:induction false} PredefinedValue(files: seq<string>, outcomes: seq<FetchOutcome>, i: nat)
    requires |outcomes| == |files| && i < |files|
    requires LoadedQuestions(outcomes[i]).Some?
    requires forall j :: i < j < |files| && QuizName(files[j]) == QuizName(files[i]) ==>
               LoadedQuestions(outcomes[j]).None?
    ensures QuizName(files[i]) in Predefined(files, outcomes)
    ensures Predefined(files, outcomes)[QuizName(files[i])] == LoadedQuestions(outcomes[i]).value
  {
    var n := |files| - 1;
    if i < n {
      assert forall j :: i < j < n ==> files[..n][j] == files[j] && outcomes[..n][j] == outcomes[j];
      assert files[..n][i] == files[i] && outcomes[..n][i] == outcomes[i];
      PredefinedValue(files[..n], outcomes[..n], i);
    }
  }

  /** The loop over the known files: each failure is skipped and the loop carries on. */
  method LoadPredefined(files: seq<string>, outcomes: seq<FetchOutcome>) returns (predefined: map<string, Js.Json>)
    requires |outcomes| == |files|
    ensures predefined == Predefined(files, outcomes)
  {
    predefined := map[];
    var i := 0;
    while i < |files|
      invariant 0 <= i <= |files|
      invariant predefined == Predefined(files[..i], outcomes[..i])
    {
      assert files[..i + 1][..i] == files[..i] && outcomes[..i + 1][..i] == outcomes[..i];
      var loaded := LoadedQuestions(outcomes[i]);
      if loaded.Some? {
        predefined := predefined[QuizName(files[i]) := loaded.value];
      }
      i := i + 1;
    }
    assert files[..i] == files && outcomes[..i] == outcomes;
  }

  /** `{ ...predefined, ...stored }`: every quiz of either map, the stored one on a collision. */
  function Merge(predefined: map<string, Js.Json>, stored: map<string, Js.Json>): (all: map<string, Js.Json>)
    ensures all.Keys == predefined.Keys + stored.Keys
    ensures forall k :: k in stored ==> all[k] == stored[k]
    ensures forall k :: k in predefined && k !in stored ==> all[k] == predefined[k]
  {
    predefined + stored
  }

  /** Merging an empty predefined map shows exactly the uploaded quizzes, and merging nothing
      stored shows exactly the predefined ones. */
  lemma MergeIdentities(m: map<string, Js.Json>)
    ensures Merge(map[], m) == m && Merge(m, map[]) == m
  {
  }

  /** `Array.isArray(quiz) ? quiz.length : 0`. */
  function QuestionCount(quiz: Js.Json): (n: nat)
    ensures quiz.JArray? ==> n == |quiz.items|
    ensures !quiz.JArray? ==> n == 0
  {
    if quiz.JArray? then |quiz.items| else 0
  }

  /** What the page renders once loading is over. */
  datatype View = NoQuizzesFound | QuizCards(counts: map<string, nat>)

  /** The "No Quizzes Found" branch exactly for an empty map; otherwise one card per quiz name
      with its question count. */
  function ViewOf(quizzes: map<string, Js.Json>): (v: View)
    ensures v.NoQuizzesFound? <==> |quizzes| == 0
    ensures v.QuizCards? ==> v.counts.Keys == quizzes.Keys
                             && forall k :: k in quizzes ==> v.counts[k] == QuestionCount(quizzes[k])
  {
    if |quizzes| == 0 then NoQuizzesFound
    else QuizCards(map k | k in quizzes :: QuestionCount(quizzes[k]))
  }

  class SelectionPage {
    var quizzes: map<string, Js.Json>
    var loading: bool
    var selectedQuiz: Option<string>
    var selectedQuizData: Option<Js.Json>
    var navigatedToStudentName: bool

    /** First render: no quizzes yet, loading. */
    constructor ()
      ensures quizzes == map[] && loading && selectedQuiz.None? && selectedQuizData.None?
      ensures !navigatedToStudentName
    {
      quizzes := map[];
      loading := true;
      selectedQuiz := None;
      selectedQuizData := None;
      navigatedToStudentName := false;
    }

    /** `loadPredefinedQuizzes` with the outcome of each known file's request and the stored
        entry. A readable entry is merged over the predefined quizzes. An unreadable one throws
        before the merge; the fallback in the catch reads the same entry and throws again, so the
        quizzes stay as they were. Loading ends on every path. */
    method Load(outcomes: seq<FetchOutcome>, entry: StoredQuizzes)
      requires |outcomes| == |KnownQuizFiles|
      modifies this
      ensures ReadQuizzes(entry).Some? ==>
                quizzes == Merge(Predefined(KnownQuizFiles, outcomes), ReadQuizzes(entry).value)
      ensures ReadQuizzes(entry).None? ==> quizzes == old(quizzes)
      ensures !loading
      ensures selectedQuiz == old(selectedQuiz) && selectedQuizData == old(selectedQuizData)
      ensures navigatedToStudentName == old(navigatedToStudentName)
    {
      loading := true;
      var predefined := LoadPredefined(KnownQuizFiles, outcomes);
      var stored := ReadQuizzes(entry);
      if stored.Some? {
        quizzes := Merge(predefined, stored.value);
      }
      loading := false;
    }

    /** `handleQuizSelect` on a quiz card: records that quiz's name and data and moves on to the
        name page. */
    method Select(quizName: string)
      requires quizName in quizzes
      modifies this
      ensures selectedQuiz == Some(quizName) && selectedQuizData == Some(old(quizzes)[quizName])
      ensures navigatedToStudentName
      ensures quizzes == old(quizzes) && loading == old(loading)
    {
      selectedQuiz := Some(quizName);
      selectedQuizData := Some(quizzes[quizName]);
      navigatedToStudentName := true;
    }
  }
}
