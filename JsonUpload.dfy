/**
 * The quiz upload page (frontend/src/pages/JsonUpload.tsx): the chosen file, the loading flag
 * and the `quizzes` entry of localStorage that a successful upload extends. Reading the file
 * and `JSON.parse` of its text happen outside the model: the upload receives the decoded
 * content, or `None` when reading or parsing failed.
 */
module JsonUpload {
  import opened Wrappers
  import Js
  import opened QuizStore

  /** The parts of a browser `File` the page uses. */
  datatype File = File(name: string, mimeType: string)

  const JsonMimeType: string := "application/json"

  /** The structural check of `handleUpload`: a non-empty array. */
  predicate IsQuestionList(content: Js.Json) {
    content.JArray? && |content.items| > 0
  }

  /** What an upload attempt ended with. */
  datatype UploadOutcome = NoFile | Rejected | Uploaded(quizName: string, questionCount: nat)

  /** The store an upload leaves behind: the new quiz under its name when the content is a
      non-empty array and the stored entry can be read; otherwise the entry untouched. */
  function StoreAfterUpload(entry: StoredQuizzes, fileName: string, content: Option<Js.Json>): (r: StoredQuizzes)
    ensures !(content.Some? && IsQuestionList(content.value) && ReadQuizzes(entry).Some?) ==> r == entry
    ensures content.Some? && IsQuestionList(content.value) && ReadQuizzes(entry).Some? ==>
              r.Stored? && QuizName(fileName) in r.quizzes
              && r.quizzes[QuizName(fileName)] == content.value
              && r.quizzes.Keys == ReadQuizzes(entry).value.Keys + {QuizName(fileName)}
              && forall k :: k in r.quizzes && k != QuizName(fileName) ==> r.quizzes[k] == ReadQuizzes(entry).value[k]
  {
    if content.Some? && IsQuestionList(content.value) && ReadQuizzes(entry).Some? then
      Stored(ReadQuizzes(entry).value[QuizName(fileName) := content.value])
    else
      entry
  }

  /** Uploading the same file name again replaces the earlier quiz: the second upload's content
      is what the store keeps, and no other quiz is affected by which came first. */
  lemma ReuploadOverwrites(entry: StoredQuizzes, fileName: string, first: Js.Json, second: Js.Json)
    requires IsQuestionList(first) && IsQuestionList(second) && ReadQuizzes(entry).Some?
    ensures StoreAfterUpload(StoreAfterUpload(entry, fileName, Some(first)), fileName, Some(second))
            == StoreAfterUpload(entry, fileName, Some(second))
  {
    var m := ReadQuizzes(entry).value;
    var name := QuizName(fileName);
    assert m[name := first][name := second] == m[name := second];
  }

  class UploadPage {
    var jsonFile: Option<File>
    var isLoading: bool
    var storedQuizzes: StoredQuizzes
    var navigatedToSelection: bool

    /** The page as first rendered over the current `quizzes` entry. */
    constructor (entry: StoredQuizzes)
      ensures jsonFile.None? && !isLoading && storedQuizzes == entry && !navigatedToSelection
    {
      jsonFile := None;
      isLoading := false;
      storedQuizzes := entry;
      navigatedToSelection := false;
    }

    /** The upload button is disabled without a file or while an upload runs. */
    predicate UploadDisabled()
      reads this
    {
      jsonFile.None? || isLoading
    }

    /** `handleFileChange`: only a file of type application/json replaces the chosen one; anything
        else (including no file) leaves the earlier choice in place. */
    method FileChange(file: Option<File>) returns (accepted: bool)
      modifies this
      ensures accepted <==> file.Some? && file.value.mimeType == JsonMimeType
      ensures accepted ==> jsonFile == file
      ensures !accepted ==> jsonFile == old(jsonFile)
      ensures isLoading == old(isLoading) && storedQuizzes == old(storedQuizzes)
      ensures navigatedToSelection == old(navigatedToSelection)
    {
      if file.Some? && file.value.mimeType == JsonMimeType {
        jsonFile := file;
        accepted := true;
      } else {
        accepted := false;
      }
    }

    /** `handleUpload` with the decoded file content. Without a file nothing changes. Otherwise
        the content must be a non-empty array; the quiz is then stored under the file's quiz name
        and the page navigates to the selection. On every path the loading flag ends false. */
    method Upload(content: Option<Js.Json>) returns (outcome: UploadOutcome)
      modifies this
      ensures old(jsonFile).None? ==> outcome == NoFile
      ensures outcome == NoFile ==> old(jsonFile).None?
      ensures old(jsonFile).Some? ==>
                storedQuizzes == StoreAfterUpload(old(storedQuizzes), old(jsonFile).value.name, content)
      ensures old(jsonFile).None? ==> storedQuizzes == old(storedQuizzes) && isLoading == old(isLoading)
      ensures old(jsonFile).Some? ==> !isLoading
      ensures outcome.Uploaded? <==>
                old(jsonFile).Some? && content.Some? && IsQuestionList(content.value)
                && ReadQuizzes(old(storedQuizzes)).Some?
      ensures outcome.Uploaded? ==>
                outcome.quizName == QuizName(old(jsonFile).value.name)
                && outcome.questionCount == |content.value.items|
      ensures navigatedToSelection == (old(navigatedToSelection) || outcome.Uploaded?)
      ensures jsonFile == old(jsonFile)
    {
      if jsonFile.None? {
        return NoFile;
      }
      isLoading := true;
      if content.None? || !IsQuestionList(content.value) {
        outcome := Rejected;
      } else {
        var quizName := QuizName(jsonFile.value.name);
        var existing := ReadQuizzes(storedQuizzes);
        if existing.None? {
          outcome := Rejected;
        } else {
          storedQuizzes := Stored(existing.value[quizName := content.value]);
          navigatedToSelection := true;
          outcome := Uploaded(quizName, |content.value.items|);
        }
      }
      isLoading := false;
    }
  }
}
