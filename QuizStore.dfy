/**
 * What the upload page (frontend/src/pages/JsonUpload.tsx) and the selection page
 * (frontend/src/pages/JsonSelection.tsx) share: the `quizzes` entry of localStorage, read with
 * `JSON.parse(localStorage.getItem('quizzes') || '{}')`, and the quiz name derived from a file
 * name with `replace('.json', '')`.
 */
module QuizStore {
  import opened Wrappers
  import Js

  /** The `quizzes` entry: absent, a decoded object from quiz name to questions, or text that
      `JSON.parse` rejects. */
  datatype StoredQuizzes = Absent | Stored(quizzes: map<string, Js.Json>) | Unparsable

  /** Reading the entry: an absent entry reads as `{}`; unparsable text throws (`None`). */
  function ReadQuizzes(entry: StoredQuizzes): (r: Option<map<string, Js.Json>>)
    ensures r.None? <==> entry.Unparsable?
    ensures entry.Absent? ==> r == Some(map[])
    ensures entry.Stored? ==> r == Some(entry.quizzes)
  {
    match entry
    case Absent => Some(map[])
    case Stored(quizzes) => Some(quizzes)
    case Unparsable => None
  }

  const JsonSuffix: string := ".json"

  /** `fileName.replace('.json', '')`: the first occurrence of ".json" removed, wherever it is. */
  function QuizName(fileName: string): (name: string)
    ensures Js.IndexOf(fileName, JsonSuffix).None? ==> name == fileName
    ensures Js.IndexOf(fileName, JsonSuffix).Some? ==> |name| == |fileName| - 5
  {
    Js.RemoveFirst(fileName, JsonSuffix)
  }

  /** Re-inserting ".json" where it was first found gives the file name back. */
  lemma QuizNameInverse(fileName: string)
    requires Js.IndexOf(fileName, JsonSuffix).Some?
    ensures var i := Js.IndexOf(fileName, JsonSuffix).value;
            i <= |QuizName(fileName)| && QuizName(fileName)[..i] + JsonSuffix + QuizName(fileName)[i..] == fileName
  {
    Js.RemoveFirstInverse(fileName, JsonSuffix);
  }

  /** A name whose only ".json" is its extension loses exactly the extension. */
  lemma QuizNameOfJsonFile(base: string)
    requires forall j :: 0 <= j < |base| ==> !Js.OccursAt(base + JsonSuffix, JsonSuffix, j)
    ensures QuizName(base + JsonSuffix) == base
  {
    Js.RemoveFirstSuffix(base, JsonSuffix);
  }

  /** A base name without a '.' has no ".json" before its extension. */
  lemma DotlessBaseName(base: string)
    requires '.' !in base
    ensures QuizName(base + JsonSuffix) == base
  {
    var s := base + JsonSuffix;
    forall j | 0 <= j < |base|
      ensures !Js.OccursAt(s, JsonSuffix, j)
    {
      assert s[j] == base[j] != JsonSuffix[0];
      assert j + 5 <= |s| ==> s[j..j + 5][0] == s[j];
    }
    QuizNameOfJsonFile(base);
  }

  /** Only the first ".json" is removed: "a.json.json" names the quiz "a.json". */
  lemma OnlyFirstOccurrenceRemoved()
    ensures QuizName("a.json.json") == "a.json"
  {
    var s := "a.json.json";
    assert s[1..6] == JsonSuffix;
    assert s[0..5][1] != JsonSuffix[1];
    assert Js.FindFrom(s, JsonSuffix, 0) == Some(1);
    assert s[..1] + s[6..] == "a.json";
  }
}
