/**
 * The topic box of the form (components/enhanced-topic-input.tsx): typing,
 * dictation, attaching files and picking a suggested topic. The text itself
 * belongs to the page (`value`/`onChange`); here it is the field `value`.
 */
module TopicInput {
  import opened Wrappers
  import opened JsStrings
  import opened Seqs

  /** `value + (value ? " " : "") + transcript` */
  function AppendTranscript(value: string, transcript: string): (r: string)
    ensures |r| == |value| + |transcript| + (if value == [] then 0 else 1)
    ensures r[..|value|] == value
    ensures r[|r| - |transcript|..] == transcript
    ensures value != [] ==> r[|value|] == ' '
  {
    value + (if value == [] then "" else " ") + transcript
  }

  const FileNotePrefix: string := "基于上传的文件："

  /** The note naming the uploaded files: the prefix, then the names joined by ", ". */
  function FileNote(names: seq<string>): (note: string)
    ensures StartsWith(note, FileNotePrefix)
  {
    FileNotePrefix + Join(names, ", ")
  }

  /** Every name of a joined list appears in the joined text. */
  lemma {:induction false} JoinMentions(xs: seq<string>, sep: string, i: nat)
    requires i < |xs|
    ensures Includes(Join(xs, sep), xs[i])
  {
    if |xs| == 1 {
      IncludesMiddle([], xs[0], []);
      assert [] + xs[0] + [] == xs[0];
    } else if i == |xs| - 1 {
      IncludesMiddle(Join(xs[..|xs| - 1], sep) + sep, xs[i], []);
      assert Join(xs[..|xs| - 1], sep) + sep + xs[i] + [] == Join(xs, sep);
    } else {
      JoinMentions(xs[..|xs| - 1], sep, i);
      var init := Join(xs[..|xs| - 1], sep);
      var k :| 0 <= k <= |init| - |xs[i]| && OccursAt(init, xs[i], k);
      var whole := Join(xs, sep);
      assert whole == init + (sep + xs[|xs| - 1]);
      assert whole[k..k + |xs[i]|] == init[k..k + |xs[i]|];
      assert OccursAt(whole, xs[i], k);
    }
  }

  /** The note names every uploaded file. */
  lemma FileNoteMentionsEach(names: seq<string>, i: nat)
    requires i < |names|
    ensures Includes(FileNote(names), names[i])
  {
    JoinMentions(names, ", ", i);
    var joined := Join(names, ", ");
    var k :| 0 <= k <= |joined| - |names[i]| && OccursAt(joined, names[i], k);
    var note := FileNote(names);
    var at := |FileNotePrefix| + k;
    assert note[at..at + |names[i]|] == joined[k..k + |names[i]|];
    assert OccursAt(note, names[i], at);
  }

  /** `value + (value ? "\n" : "") + note` */
  function AppendFileNote(value: string, names: seq<string>): (r: string)
    ensures |r| == |value| + |FileNote(names)| + (if value == [] then 0 else 1)
    ensures r[..|value|] == value
    ensures r[|r| - |FileNote(names)|..] == FileNote(names)
    ensures value != [] ==> r[|value|] == '\n'
  {
    value + (if value == [] then "" else "\n") + FileNote(names)
  }

  /** The eight topics the suggestion button picks from. */
  const Suggestions: seq<string> := [
    "分数的加减法运算",
    "古诗词鉴赏与理解",
    "几何图形的面积计算",
    "英语时态语法练习",
    "中国历史朝代更替",
    "化学元素周期表",
    "物理力学基础知识",
    "生物细胞结构"
  ]

  /** `Math.floor(rand * suggestions.length)` for `rand` in [0, 1). */
  function SuggestionIndex(rand: real): (i: nat)
    requires 0.0 <= rand < 1.0
    ensures i < |Suggestions|
    ensures i as real <= rand * 8.0 < i as real + 1.0
  {
    (rand * 8.0).Floor
  }

  datatype UploadedFile = UploadedFile(name: string)

  function Names(files: seq<UploadedFile>): (names: seq<string>)
    ensures |names| == |files|
    ensures forall i :: 0 <= i < |files| ==> names[i] == files[i].name
  {
    seq(|files|, i requires 0 <= i < |files| => files[i].name)
  }

  /**
   * The component's state. `pendingNotes` holds, for each upload whose
   * two-second processing timer has not fired yet, the topic text the timer
   * captured and the names it will report, oldest first; `dictationBase` is
   * the topic text captured when dictation started.
   */
  class TopicBox {
    var value: string
    var uploadedFiles: seq<UploadedFile>
    var isProcessingFile: bool
    var isListening: bool
    var pendingNotes: seq<(string, seq<string>)>
    var dictationBase: Option<string>

    constructor(initial: string)
      ensures value == initial && uploadedFiles == [] && pendingNotes == []
      ensures !isProcessingFile && !isListening && dictationBase.None?
    {
      value, uploadedFiles, pendingNotes := initial, [], [];
      isProcessingFile, isListening, dictationBase := false, false, None;
    }

    /** Typing in the text area. */
    method SetValue(v: string)
      modifies this
      ensures value == v
      ensures uploadedFiles == old(uploadedFiles) && pendingNotes == old(pendingNotes)
      ensures isProcessingFile == old(isProcessingFile) && isListening == old(isListening)
      ensures dictationBase == old(dictationBase)
    {
      value := v;
    }

    /**
     * The microphone button: without speech recognition in the browser
     * nothing happens; otherwise recognition starts and its result handler
     * keeps the text as it is now.
     */
    method StartListening(supported: bool)
      modifies this
      ensures supported ==> dictationBase == Some(old(value)) && isListening
      ensures !supported ==> dictationBase == old(dictationBase) && isListening == old(isListening)
      ensures value == old(value) && uploadedFiles == old(uploadedFiles) && pendingNotes == old(pendingNotes)
      ensures isProcessingFile == old(isProcessingFile)
    {
      if supported {
        dictationBase := Some(value);
        isListening := true;
      }
    }

    /** Recognition stopped, ended or failed. */
    method StopListening()
      modifies this
      ensures !isListening
      ensures value == old(value) && uploadedFiles == old(uploadedFiles) && pendingNotes == old(pendingNotes)
      ensures isProcessingFile == old(isProcessingFile) && dictationBase == old(dictationBase)
    {
      isListening := false;
    }

    /** A recognised phrase: appended, with a space, to the text captured when dictation started. */
    method OnSpeechResult(transcript: string)
      modifies this
      ensures dictationBase.Some? ==> value == AppendTranscript(dictationBase.value, transcript)
      ensures dictationBase.None? ==> value == old(value)
      ensures dictationBase == old(dictationBase) && uploadedFiles == old(uploadedFiles)
      ensures pendingNotes == old(pendingNotes)
      ensures isProcessingFile == old(isProcessingFile) && isListening == old(isListening)
    {
      if dictationBase.Some? {
        value := AppendTranscript(dictationBase.value, transcript);
      }
    }

    /**
     * Files chosen: none changes nothing; otherwise they are listed after
     * the earlier ones, processing starts, and a timer is set that will add
     * the note for these files to the text as it is now.
     */
    method HandleFileUpload(files: seq<UploadedFile>)
      modifies this
      ensures files == [] ==>
                uploadedFiles == old(uploadedFiles) && pendingNotes == old(pendingNotes)
                && isProcessingFile == old(isProcessingFile)
      ensures files != [] ==>
                uploadedFiles == old(uploadedFiles) + files && isProcessingFile
                && pendingNotes == old(pendingNotes) + [(old(value), Names(files))]
      ensures value == old(value) && isListening == old(isListening) && dictationBase == old(dictationBase)
    {
      if |files| > 0 {
        isProcessingFile := true;
        uploadedFiles := uploadedFiles + files;
        pendingNotes := pendingNotes + [(value, Names(files))];
      }
    }

    /**
     * The oldest processing timer fires: the text becomes the text it
     * captured followed by its note (edits made meanwhile are replaced),
     * and processing is reported finished.
     */
    method FinishFileProcessing()
      requires pendingNotes != []
      modifies this
      ensures value == AppendFileNote(old(pendingNotes)[0].0, old(pendingNotes)[0].1)
      ensures pendingNotes == old(pendingNotes)[1..] && !isProcessingFile
      ensures uploadedFiles == old(uploadedFiles)
      ensures isListening == old(isListening) && dictationBase == old(dictationBase)
    {
      var (base, names) := pendingNotes[0];
      value := AppendFileNote(base, names);
      pendingNotes := pendingNotes[1..];
      isProcessingFile := false;
    }

    /** The × on the file at `index`: that entry goes, the rest keep their order. */
    method RemoveFile(index: nat)
      modifies this
      ensures uploadedFiles == RemoveAt(old(uploadedFiles), index)
      ensures value == old(value) && pendingNotes == old(pendingNotes)
      ensures isProcessingFile == old(isProcessingFile) && isListening == old(isListening)
      ensures dictationBase == old(dictationBase)
    {
      uploadedFiles := RemoveAt(uploadedFiles, index);
    }

    /** The suggestion button, with `rand` standing for `Math.random()`. */
    method ApplySuggestion(rand: real)
      requires 0.0 <= rand < 1.0
      modifies this
      ensures value == Suggestions[SuggestionIndex(rand)] && value in Suggestions
      ensures uploadedFiles == old(uploadedFiles) && pendingNotes == old(pendingNotes)
      ensures isProcessingFile == old(isProcessingFile) && isListening == old(isListening)
      ensures dictationBase == old(dictationBase)
    {
      value := Suggestions[SuggestionIndex(rand)];
    }
  }
}
