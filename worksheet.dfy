/**
 * The server action that turns a worksheet request into two downloadable
 * documents (app/actions.ts): the text the language model returns is cut down
 * to its bracketed JSON array, parsed, and every element normalised; any
 * failure on the way is replaced by canned sample questions. The questions are
 * then laid out as a student sheet and, when asked for, an answer key, each
 * wrapped as an HTML data URL.
 *
 * The model call and `JSON.parse` are not modelled: the response arrives as an
 * `Option<string>` (None when the call throws), and parsing is the parameter
 * `parse`, a partial function from text to the array it denotes. Rendering a
 * document to HTML and base64-encoding it is the parameter `encode`.
 */
module Worksheet {
  import opened Wrappers
  import opened JsStrings
  import opened JsValues

  /** What the form submits (actions.ts:6-12). */
  datatype WorksheetData = WorksheetData(
    grade: string,
    topic: string,
    qcount: int,
    types: seq<string>,
    withKey: bool)

  /** The two question kinds the form offers, and the names questions carry. */
  const ChoiceLabel: string := "选择题"
  const BlankLabel: string := "填空题"
  const MultipleChoice: string := "multiple-choice"
  const FillInBlank: string := "fill-in-blank"

  /** `typeMapping[key]`; `None` for an undefined key and for every other name. */
  function TypeMapping(key: Option<string>): (r: Option<string>)
    ensures r.Some? <==> key == Some(ChoiceLabel) || key == Some(BlankLabel)
  {
    if key == Some(ChoiceLabel) then Some(MultipleChoice)
    else if key == Some(BlankLabel) then Some(FillInBlank)
    else None
  }

  // ---------------------------------------------------------------------------
  // Locating the JSON array: `text.match(/\[[\s\S]*\]/)`
  // ---------------------------------------------------------------------------

  function FirstIndex(s: string, c: char): (r: Option<nat>)
    ensures r.None? <==> c !in s
    ensures r.Some? ==> r.value < |s| && s[r.value] == c
                        && forall k :: 0 <= k < r.value ==> s[k] != c
  {
    if s == [] then None
    else if s[0] == c then Some(0)
    else
      match FirstIndex(s[1..], c)
      case None => None
      case Some(i) => Some(i + 1)
  }

  function LastIndex(s: string, c: char): (r: Option<nat>)
    ensures r.None? <==> c !in s
    ensures r.Some? ==> r.value < |s| && s[r.value] == c
                        && forall k :: r.value < k < |s| ==> s[k] != c
  {
    if s == [] then None
    else if s[|s| - 1] == c then Some(|s| - 1)
    else
      var r := LastIndex(s[..|s| - 1], c);
      assert forall k :: 0 <= k < |s| - 1 ==> s[..|s| - 1][k] == s[k];
      r
  }

  /** Some `[` is followed, somewhere later, by a `]`. */
  predicate HasBracketPair(text: string) {
    exists i, j :: 0 <= i < j < |text| && text[i] == '[' && text[j] == ']'
  }

  /**
   * The greedy match: it exists exactly when some `[` precedes some `]`, and
   * it runs from the first `[` of the text to the last `]`, both included.
   */
  function ExtractJsonSpan(text: string): (r: Option<string>)
    ensures r.None? <==> !HasBracketPair(text)
    ensures r.Some? ==> |r.value| >= 2 && r.value[0] == '[' && r.value[|r.value| - 1] == ']'
    ensures r.Some? ==> exists i :: OccursAt(text, r.value, i)
                          && (forall k :: 0 <= k < i ==> text[k] != '[')
                          && (forall k :: i + |r.value| <= k < |text| ==> text[k] != ']')
  {
    match (FirstIndex(text, '['), LastIndex(text, ']'))
    case (Some(i), Some(j)) =>
      if i < j then
        var span := text[i..j + 1];
        assert OccursAt(text, span, i);
        Some(span)
      else None
    case _ => None
  }

  // ---------------------------------------------------------------------------
  // Normalising one parsed element (actions.ts:87-94)
  // ---------------------------------------------------------------------------

  /** The word a requested type looks for in the model's `type`. */
  function Marker(t: string): string {
    if Includes(t, "选择") then "multiple" else "fill"
  }

  /**
   * `qtype.includes(marker)`: a substring test on strings, a membership test
   * on arrays; on every other value the call throws (`None`).
   */
  function CallIncludes(qtype: Value, marker: string): (r: Option<bool>)
    ensures r.Some? <==> qtype.Str? || qtype.Arr?
  {
    match qtype
    case Str(s) => Some(Includes(s, marker))
    case Arr(items) => Some(Str(marker) in items)
    case _ => None
  }

  /** The requested type `t` recognises the model's type `qtype`. */
  predicate Recognises(qtype: Value, t: string) {
    CallIncludes(qtype, Marker(t)) == Some(true)
  }

  /**
   * `types.find(t => qtype.includes(marker(t)))`: the first requested type
   * that recognises `qtype`, or none; it throws as soon as it tests a value
   * that has no `includes`.
   */
  function FindRequested(qtype: Value, types: seq<string>): (r: Result<Option<string>>)
    ensures r.Err? <==> types != [] && !(qtype.Str? || qtype.Arr?)
    ensures r.Ok? && r.value.Some? ==>
              exists k :: 0 <= k < |types| && types[k] == r.value.value && Recognises(qtype, types[k])
                          && forall j :: 0 <= j < k ==> !Recognises(qtype, types[j])
    ensures r.Ok? && r.value.None? ==> forall k :: 0 <= k < |types| ==> !Recognises(qtype, types[k])
  {
    if types == [] then Ok(None)
    else
      match CallIncludes(qtype, Marker(types[0]))
      case None => Err("TypeError: q.type.includes is not a function")
      case Some(true) => Ok(Some(types[0]))
      case Some(false) =>
        var r := FindRequested(qtype, types[1..]);
        if r.Ok? && r.value.Some? then
          var k :| 0 <= k < |types[1..]| && types[1..][k] == r.value.value && Recognises(qtype, types[1..][k])
                   && forall j :: 0 <= j < k ==> !Recognises(qtype, types[1..][j]);
          assert types[k + 1] == r.value.value && Recognises(qtype, types[k + 1]);
          assert forall j :: 0 <= j < k + 1 ==> !Recognises(qtype, types[j]) by {
            forall j | 0 <= j < k + 1 ensures !Recognises(qtype, types[j]) {
              if j > 0 { assert types[j] == types[1..][j - 1]; }
            }
          }
          r
        else
          assert forall k :: 1 <= k < |types| ==> types[k] == types[1..][k - 1];
          r
  }

  /**
   * The `type` a normalised element gets: `typeMapping[found || types[0]] || q.type`,
   * or the exception that escapes (reading `type` of null, or calling
   * `includes` on a value that has none).
   */
  function NormalisedType(q: Value, types: seq<string>): (r: Result<Value>)
    ensures r.Err? <==> q.Null? || q.Undefined?
                        || (types != [] && !(ReadType(q).value.Str? || ReadType(q).value.Arr?))
  {
    match ReadType(q)
    case Err(e) => Err(e)
    case Ok(qtype) =>
      match FindRequested(qtype, types)
      case Err(e) => Err(e)
      case Ok(found) =>
        var key := if found.Some? && found.value != "" then found
                   else if types != [] then Some(types[0])
                   else None;
        match TypeMapping(key)
        case Some(mapped) => Ok(Str(mapped))
        case None => Ok(qtype)
  }

  /**
   * `({ ...q, id: index + 1, type: ... })`: the id is the 1-based position,
   * the type is the normalised one, and every other property of `q` is
   * copied unchanged; no property is added besides `id` and `type`.
   */
  function Normalise(q: Value, index: nat, types: seq<string>): (r: Result<Record>)
    ensures r.Err? <==> NormalisedType(q, types).Err?
    ensures r.Ok? ==> Get(r.value, "id") == Num((index + 1) as real)
                      && Get(r.value, "type") == NormalisedType(q, types).value
    ensures r.Ok? ==> r.value.Keys == Spread(q).Keys + {"id", "type"}
    ensures r.Ok? ==> forall key :: key in Spread(q) && key != "id" && key != "type" ==>
                                     r.value[key] == Spread(q)[key]
  {
    match NormalisedType(q, types)
    case Err(e) => Err(e)
    case Ok(ty) => Ok(Spread(q)["id" := Num((index + 1) as real)]["type" := ty])
  }

  /** `items.map(normalise)` from position `start` on; the first exception escapes. */
  function NormaliseFrom(items: seq<Value>, types: seq<string>, start: nat): (r: Result<seq<Record>>)
    requires start <= |items|
    decreases |items| - start
    ensures r.Ok? <==> forall k :: start <= k < |items| ==> Normalise(items[k], k, types).Ok?
    ensures r.Ok? ==> |r.value| == |items| - start
                      && forall k :: 0 <= k < |r.value| ==>
                                     Normalise(items[start + k], start + k, types) == Ok(r.value[k])
  {
    if start == |items| then Ok([])
    else
      match Normalise(items[start], start, types)
      case Err(e) => Err(e)
      case Ok(first) =>
        match NormaliseFrom(items, types, start + 1)
        case Err(e) => Err(e)
        case Ok(rest) =>
          assert forall k :: 1 <= k < |rest| + 1 ==> ([first] + rest)[k] == rest[k - 1];
          Ok([first] + rest)
  }

  // ---------------------------------------------------------------------------
  // Fallback questions (actions.ts:102-125)
  // ---------------------------------------------------------------------------

  const SampleOptions: seq<string> := ["A) 选项1", "B) 选项2", "C) 选项3", "D) 选项4"]

  function ChoiceSample(topic: string, i: nat): Record {
    map[
      "id" := Num(i as real),
      "type" := Str(MultipleChoice),
      "question" := Str("关于" + topic + "的第" + NatToString(i) + "题：以下哪个选项是正确的？"),
      "options" := Arr([Str(SampleOptions[0]), Str(SampleOptions[1]), Str(SampleOptions[2]), Str(SampleOptions[3])]),
      "answer" := Str("A) 选项1"),
      "explanation" := Str("这是正确答案的解释。")
    ]
  }

  function BlankSample(topic: string, i: nat): Record {
    map[
      "id" := Num(i as real),
      "type" := Str(FillInBlank),
      "question" := Str("关于" + topic + "的第" + NatToString(i) + "题：请填空 ____。"),
      "answer" := Str("正确答案"),
      "explanation" := Str("这是填空题的解释。")
    ]
  }

  /** How many times `for (let i = 1; i <= qcount; i++)` runs. */
  function SampleCount(data: WorksheetData): nat {
    if data.qcount > 0 then data.qcount else 0
  }

  /** The question pushed in round `i`. */
  function SampleQuestion(data: WorksheetData, i: nat): Record {
    if ChoiceLabel in data.types then ChoiceSample(data.topic, i) else BlankSample(data.topic, i)
  }

  /** The sample questions, one per loop round `i = 1 .. qcount`. */
  function SampleQuestions(data: WorksheetData): seq<Record> {
    seq(SampleCount(data), k requires 0 <= k => SampleQuestion(data, k + 1))
  }

  /** `generateSampleQuestions`: the loop that pushes one sample question per round. */
  method GenerateSampleQuestions(data: WorksheetData) returns (questions: seq<Record>)
    ensures questions == SampleQuestions(data)
  {
    questions := [];
    var i := 1;
    while i <= data.qcount
      invariant 1 <= i <= SampleCount(data) + 1
      invariant questions == SampleQuestions(data)[..i - 1]
    {
      if ChoiceLabel in data.types {
        questions := questions + [ChoiceSample(data.topic, i)];
      } else {
        questions := questions + [BlankSample(data.topic, i)];
      }
      i := i + 1;
    }
  }

  /**
   * Question `i` of the fallback: numbered `i`, its text names the topic and
   * `i`, its answer and explanation are non-empty strings; when `choice` it is
   * multiple choice with four string options whose first is the answer, otherwise it
   * is fill-in-the-blank and has no options.
   */
  predicate IsSampleQuestion(q: Record, topic: string, i: nat, choice: bool) {
    && Get(q, "id") == Num(i as real)
    && Get(q, "question").Str?
    && Includes(Get(q, "question").s, topic)
    && Includes(Get(q, "question").s, NatToString(i))
    && Get(q, "answer").Str? && Truthy(Get(q, "answer"))
    && Get(q, "explanation").Str? && Truthy(Get(q, "explanation"))
    && (choice ==>
          && Get(q, "type") == Str(MultipleChoice)
          && Get(q, "options").Arr? && |Get(q, "options").items| == 4
          && (forall x :: x in Get(q, "options").items ==> x.Str?)
          && Get(q, "answer") == Get(q, "options").items[0])
    && (!choice ==> Get(q, "type") == Str(FillInBlank) && "options" !in q)
  }

  /**
   * The fallback gives `max(qcount, 0)` questions, numbered 1..n in order,
   * all multiple choice when "选择题" was requested and all fill-in-the-blank
   * otherwise.
   */
  lemma SampleQuestionsShape(data: WorksheetData)
    ensures |SampleQuestions(data)| == if data.qcount > 0 then data.qcount else 0
    ensures forall k :: 0 <= k < |SampleQuestions(data)| ==>
              IsSampleQuestion(SampleQuestions(data)[k], data.topic, k + 1, ChoiceLabel in data.types)
  {
    forall k | 0 <= k < |SampleQuestions(data)|
      ensures IsSampleQuestion(SampleQuestions(data)[k], data.topic, k + 1, ChoiceLabel in data.types)
    {
      SampleQuestionText(data, k + 1);
    }
  }

  lemma SampleQuestionText(data: WorksheetData, i: nat)
    ensures IsSampleQuestion(SampleQuestion(data, i), data.topic, i, ChoiceLabel in data.types)
  {
    var n := NatToString(i);
    var tail := if ChoiceLabel in data.types then "题：以下哪个选项是正确的？" else "题：请填空 ____。";
    var text := "关于" + data.topic + "的第" + n + tail;
    assert Get(SampleQuestion(data, i), "question") == Str(text);
    assert text == "关于" + data.topic + ("的第" + n + tail);
    IncludesMiddle("关于", data.topic, "的第" + n + tail);
    assert text == ("关于" + data.topic + "的第") + n + tail;
    IncludesMiddle("关于" + data.topic + "的第", n, tail);
  }

  // ---------------------------------------------------------------------------
  // The whole pipeline after the model call (actions.ts:79-99)
  // ---------------------------------------------------------------------------

  /**
   * `generateQuestions` once the model has answered: the normalised array cut
   * out of the reply, or the fallback when there is no array, it does not
   * parse, or an element throws. Either way question k is numbered k + 1.
   */
  function GenerateQuestions(data: WorksheetData, text: string, parse: string -> Option<seq<Value>>): (qs: seq<Record>)
    ensures forall k :: 0 <= k < |qs| ==> Get(qs[k], "id") == Num((k + 1) as real)
  {
    SampleQuestionsShape(data);
    match ExtractJsonSpan(text)
    case None => SampleQuestions(data)
    case Some(span) =>
      match parse(span)
      case None => SampleQuestions(data)
      case Some(items) =>
        match NormaliseFrom(items, data.types, 0)
        case Err(_) => SampleQuestions(data)
        case Ok(questions) => questions
  }

  /** No `[` before a `]`: the sample questions. */
  lemma NoArrayGivesSamples(data: WorksheetData, text: string, parse: string -> Option<seq<Value>>)
    requires !HasBracketPair(text)
    ensures GenerateQuestions(data, text, parse) == SampleQuestions(data)
  {
  }

  /** The bracketed text does not parse: the sample questions. */
  lemma ParseFailureGivesSamples(data: WorksheetData, text: string, parse: string -> Option<seq<Value>>)
    requires ExtractJsonSpan(text).Some? && parse(ExtractJsonSpan(text).value).None?
    ensures GenerateQuestions(data, text, parse) == SampleQuestions(data)
  {
  }

  /** Some element throws while being normalised: the sample questions. */
  lemma NormaliseFailureGivesSamples(data: WorksheetData, text: string, parse: string -> Option<seq<Value>>,
                                     items: seq<Value>, k: nat)
    requires ExtractJsonSpan(text).Some? && parse(ExtractJsonSpan(text).value) == Some(items)
    requires k < |items| && NormalisedType(items[k], data.types).Err?
    ensures GenerateQuestions(data, text, parse) == SampleQuestions(data)
  {
    assert Normalise(items[k], k, data.types).Err?;
  }

  /**
   * A parsed array whose elements all normalise gives one question per
   * element, in order, numbered 1..N whatever ids the model wrote, each
   * carrying the normalised type and every other property of its element
   * unchanged. In particular `[]` gives no questions, not the fallback.
   */
  lemma ParsedArrayGivesNormalisedQuestions(data: WorksheetData, text: string,
                                            parse: string -> Option<seq<Value>>, items: seq<Value>)
    requires ExtractJsonSpan(text).Some? && parse(ExtractJsonSpan(text).value) == Some(items)
    requires forall k :: 0 <= k < |items| ==> NormalisedType(items[k], data.types).Ok?
    ensures |GenerateQuestions(data, text, parse)| == |items|
    ensures items == [] ==> GenerateQuestions(data, text, parse) == []
    ensures forall k :: 0 <= k < |items| ==>
              var q := GenerateQuestions(data, text, parse)[k];
              && Get(q, "id") == Num((k + 1) as real)
              && Get(q, "type") == NormalisedType(items[k], data.types).value
              && q.Keys == Spread(items[k]).Keys + {"id", "type"}
              && forall key :: key in Spread(items[k]) && key != "id" && key != "type" ==>
                                 q[key] == Spread(items[k])[key]
  {
    assert forall k :: 0 <= k < |items| ==> Normalise(items[k], k, data.types).Ok?;
    var r := NormaliseFrom(items, data.types, 0);
    assert forall k :: 0 <= k < |items| ==> Normalise(items[k], k, data.types) == Ok(r.value[k]);
  }

  /**
   * With the request types the form offers, every question that normalises
   * gets one of the two names the documents know.
   */
  lemma NormalisedTypeIsKnown(q: Value, types: seq<string>)
    requires types != [] && forall k :: 0 <= k < |types| ==> types[k] == ChoiceLabel || types[k] == BlankLabel
    requires NormalisedType(q, types).Ok?
    ensures NormalisedType(q, types).value == Str(MultipleChoice)
            || NormalisedType(q, types).value == Str(FillInBlank)
  {
    var qtype := ReadType(q).value;
    var found := FindRequested(qtype, types).value;
    if found.Some? {
      var k :| 0 <= k < |types| && types[k] == found.value;
    }
  }

  /**
   * A model type naming "multiple" and not "fill" becomes "multiple-choice"
   * whenever "选择题" was requested among the form's types; the symmetric
   * case gives "fill-in-blank" whenever "填空题" was requested.
   */
  lemma ModelTypeRecognised(q: Value, types: seq<string>, s: string)
    requires forall k :: 0 <= k < |types| ==> types[k] == ChoiceLabel || types[k] == BlankLabel
    requires q.Obj? && Get(q.fields, "type") == Str(s)
    ensures ChoiceLabel in types && Includes(s, "multiple") && !Includes(s, "fill") ==>
              NormalisedType(q, types) == Ok(Str(MultipleChoice))
    ensures BlankLabel in types && Includes(s, "fill") && !Includes(s, "multiple") ==>
              NormalisedType(q, types) == Ok(Str(FillInBlank))
  {
    assert Marker(ChoiceLabel) == "multiple" by {
      assert OccursAt(ChoiceLabel, "选择", 0);
    }
    assert Marker(BlankLabel) == "fill" by {
      assert !Includes(BlankLabel, "选择") by {
        forall i | 0 <= i <= 1 ensures !OccursAt(BlankLabel, "选择", i) {
          assert BlankLabel[i] != '选';
        }
      }
    }
    var qtype := Str(s);
    assert ReadType(q) == Ok(qtype);
    var found := FindRequested(qtype, types);
    if ChoiceLabel in types && Includes(s, "multiple") && !Includes(s, "fill") {
      var c := IndexOfLabel(types, ChoiceLabel);
      assert Recognises(qtype, types[c]);
      assert found.value.Some?;
      var k :| 0 <= k < |types| && types[k] == found.value.value && Recognises(qtype, types[k]);
    }
    if BlankLabel in types && Includes(s, "fill") && !Includes(s, "multiple") {
      var c := IndexOfLabel(types, BlankLabel);
      assert Recognises(qtype, types[c]);
      assert found.value.Some?;
      var k :| 0 <= k < |types| && types[k] == found.value.value && Recognises(qtype, types[k]);
    }
  }

  lemma IndexOfLabel(types: seq<string>, name: string) returns (c: nat)
    requires name in types
    ensures c < |types| && types[c] == name
  {
    c :| 0 <= c < |types| && types[c] == name;
  }

  // ---------------------------------------------------------------------------
  // Documents (actions.ts:127-167, 261-274)
  // ---------------------------------------------------------------------------

  /** One question on the student sheet: number, text and, for multiple choice, the options. */
  datatype StudentBlock =
    | ChoiceBlock(number: Value, text: Value, options: seq<Value>)
    | PlainBlock(number: Value, text: Value)

  /** One entry of the answer key: number, answer and the explanation when it is truthy. */
  datatype AnswerBlock = AnswerBlock(number: Value, answer: Value, explanation: Option<Value>)

  /** A document as its header fields and its per-question fragments, in order. */
  datatype Document =
    | StudentSheet(topic: string, grade: string, blocks: seq<StudentBlock>)
    | AnswerKey(topic: string, grade: string, answers: seq<AnswerBlock>)

  /**
   * `q.options?.map(...)`: null or undefined give no options; an array gives
   * its elements; any other value has no `map` and the call throws.
   */
  function OptionList(options: Value): (r: Result<seq<Value>>)
    ensures r.Ok? <==> options.Undefined? || options.Null? || options.Arr?
  {
    match options
    case Undefined => Ok([])
    case Null => Ok([])
    case Arr(items) => Ok(items)
    case _ => Err("TypeError: q.options?.map is not a function")
  }

  /** Whether every value in `vs` survives `${...}`. */
  predicate AllInterpolate(vs: seq<Value>) {
    forall x :: x in vs ==> Interpolates(x)
  }

  const ConversionError: string := "TypeError: Cannot convert object to primitive value"

  /**
   * The student fragment of one question: `${q.id}` and `${q.question}`, and
   * for multiple choice one `${option}` line per option.
   */
  function StudentBlockOf(q: Record): (r: Result<StudentBlock>)
    ensures r.Err? <==>
              || !Interpolates(Get(q, "id"))
              || !Interpolates(Get(q, "question"))
              || (Get(q, "type") == Str(MultipleChoice) &&
                  (OptionList(Get(q, "options")).Err? || !AllInterpolate(OptionList(Get(q, "options")).value)))
    ensures r.Ok? ==> r.value.number == Get(q, "id") && r.value.text == Get(q, "question")
    ensures r.Ok? ==> (r.value.ChoiceBlock? <==> Get(q, "type") == Str(MultipleChoice))
    ensures r.Ok? && r.value.ChoiceBlock? ==> OptionList(Get(q, "options")) == Ok(r.value.options)
  {
    if Get(q, "type") == Str(MultipleChoice) then
      match OptionList(Get(q, "options"))
      case Err(e) => Err(e)
      case Ok(options) =>
        if !AllInterpolate(options) || !Interpolates(Get(q, "id")) || !Interpolates(Get(q, "question")) then
          Err(ConversionError)
        else Ok(ChoiceBlock(Get(q, "id"), Get(q, "question"), options))
    else if !Interpolates(Get(q, "id")) || !Interpolates(Get(q, "question")) then
      Err(ConversionError)
    else Ok(PlainBlock(Get(q, "id"), Get(q, "question")))
  }

  /** The answer-key entry of one question: `${q.id}`, `${q.answer}`, and `${q.explanation}` when it is truthy. */
  function AnswerBlockOf(q: Record): (r: Result<AnswerBlock>)
    ensures r.Err? <==>
              || !Interpolates(Get(q, "id"))
              || !Interpolates(Get(q, "answer"))
              || (Truthy(Get(q, "explanation")) && !Interpolates(Get(q, "explanation")))
    ensures r.Ok? ==> r.value.number == Get(q, "id") && r.value.answer == Get(q, "answer")
    ensures r.Ok? ==> (r.value.explanation.Some? <==> Truthy(Get(q, "explanation")))
    ensures r.Ok? && r.value.explanation.Some? ==> r.value.explanation.value == Get(q, "explanation")
  {
    var e := Get(q, "explanation");
    if !Interpolates(Get(q, "id")) || !Interpolates(Get(q, "answer")) || (Truthy(e) && !Interpolates(e)) then
      Err(ConversionError)
    else Ok(AnswerBlock(Get(q, "id"), Get(q, "answer"), if Truthy(e) then Some(e) else None))
  }

  /** `questions.map(f)`: one result per question, in order; the first exception escapes. */
  function MapQuestions<T>(qs: seq<Record>, f: Record -> Result<T>): (r: Result<seq<T>>)
    ensures r.Ok? <==> forall k :: 0 <= k < |qs| ==> f(qs[k]).Ok?
    ensures r.Ok? ==> |r.value| == |qs| && forall k :: 0 <= k < |qs| ==> f(qs[k]) == Ok(r.value[k])
  {
    if qs == [] then Ok([])
    else
      match f(qs[0])
      case Err(e) => Err(e)
      case Ok(first) =>
        match MapQuestions(qs[1..], f)
        case Err(e) =>
          assert forall k :: 1 <= k < |qs| ==> qs[k] == qs[1..][k - 1];
          Err(e)
        case Ok(rest) =>
          assert forall k :: 1 <= k < |qs| ==> qs[k] == qs[1..][k - 1];
          Ok([first] + rest)
  }

  /** `generateStudentHtml`: the header names the topic and grade, then one block per question, in order. */
  function StudentSheetOf(qs: seq<Record>, data: WorksheetData): (r: Result<Document>)
    ensures r.Ok? <==> forall k :: 0 <= k < |qs| ==> StudentBlockOf(qs[k]).Ok?
    ensures r.Ok? ==> r.value.StudentSheet? && r.value.topic == data.topic && r.value.grade == data.grade
    ensures r.Ok? ==> |r.value.blocks| == |qs|
    ensures r.Ok? ==> forall k :: 0 <= k < |qs| ==> StudentBlockOf(qs[k]) == Ok(r.value.blocks[k])
  {
    match MapQuestions(qs, StudentBlockOf)
    case Err(e) => Err(e)
    case Ok(blocks) => Ok(StudentSheet(data.topic, data.grade, blocks))
  }

  /** `generateAnswerKeyHtml`: the header names the topic and grade, then one entry per question, in order. */
  function AnswerKeyOf(qs: seq<Record>, data: WorksheetData): (r: Result<Document>)
    ensures r.Ok? <==> forall k :: 0 <= k < |qs| ==> AnswerBlockOf(qs[k]).Ok?
    ensures r.Ok? ==> r.value.AnswerKey? && r.value.topic == data.topic && r.value.grade == data.grade
    ensures r.Ok? ==> |r.value.answers| == |qs|
    ensures r.Ok? ==>
              forall k :: 0 <= k < |qs| ==>
                && r.value.answers[k].number == Get(qs[k], "id")
                && r.value.answers[k].answer == Get(qs[k], "answer")
                && (r.value.answers[k].explanation.Some? <==> Truthy(Get(qs[k], "explanation")))
                && (r.value.answers[k].explanation.Some? ==>
                      r.value.answers[k].explanation.value == Get(qs[k], "explanation"))
  {
    match MapQuestions(qs, AnswerBlockOf)
    case Err(e) => Err(e)
    case Ok(answers) =>
      assert forall k :: 0 <= k < |qs| ==> AnswerBlockOf(qs[k]) == Ok(answers[k]);
      Ok(AnswerKey(data.topic, data.grade, answers))
  }

  /** The two download links `generateWorksheet` returns. */
  datatype WorksheetFiles = WorksheetFiles(studentPdf: string, answerKeyPdf: string)

  const DataUrlPrefix: string := "data:text/html;base64,"

  /**
   * `generateWorksheet`: questions from the model's response (or the
   * fallback), the student sheet always, the answer key only when `withKey`
   * and `""` otherwise, each file the data-URL prefix followed by the encoded
   * document. A failing model call, or a document that throws while it is
   * laid out, makes the whole action fail.
   */
  function GenerateWorksheet(data: WorksheetData, response: Option<string>,
                             parse: string -> Option<seq<Value>>, encode: Document -> string): (r: Result<WorksheetFiles>)
    ensures r.Err? <==>
              || response.None?
              || StudentSheetOf(GenerateQuestions(data, response.value, parse), data).Err?
              || (data.withKey && AnswerKeyOf(GenerateQuestions(data, response.value, parse), data).Err?)
    ensures r.Ok? ==> response.Some?
    ensures r.Ok? ==>
              r.value.studentPdf ==
                DataUrlPrefix + encode(StudentSheetOf(GenerateQuestions(data, response.value, parse), data).value)
    ensures r.Ok? && data.withKey ==>
              r.value.answerKeyPdf ==
                DataUrlPrefix + encode(AnswerKeyOf(GenerateQuestions(data, response.value, parse), data).value)
    ensures r.Ok? ==> StartsWith(r.value.studentPdf, DataUrlPrefix)
    ensures r.Ok? ==> (r.value.answerKeyPdf == "" <==> !data.withKey)
    ensures r.Ok? && data.withKey ==> StartsWith(r.value.answerKeyPdf, DataUrlPrefix)
  {
    match response
    case None => Err("Failed to generate worksheet")
    case Some(text) =>
      var questions := GenerateQuestions(data, text, parse);
      match StudentSheetOf(questions, data)
      case Err(_) => Err("Failed to generate worksheet")
      case Ok(sheet) =>
        var studentPdf := DataUrlPrefix + encode(sheet);
        assert studentPdf[..|DataUrlPrefix|] == DataUrlPrefix;
        if !data.withKey then Ok(WorksheetFiles(studentPdf, ""))
        else
          match AnswerKeyOf(questions, data)
          case Err(_) => Err("Failed to generate worksheet")
          case Ok(key) =>
            var answerKeyPdf := DataUrlPrefix + encode(key);
            assert answerKeyPdf[..|DataUrlPrefix|] == DataUrlPrefix;
            Ok(WorksheetFiles(studentPdf, answerKeyPdf))
  }

  /** The fallback questions always lay out, on the student sheet and in the answer key. */
  lemma SamplesAlwaysLayOut(data: WorksheetData)
    ensures StudentSheetOf(SampleQuestions(data), data).Ok?
    ensures AnswerKeyOf(SampleQuestions(data), data).Ok?
  {
    SampleQuestionsShape(data);
  }

  /** When the response holds no bracketed array the action always succeeds. */
  lemma NoArrayWorksheetSucceeds(data: WorksheetData, text: string,
                                 parse: string -> Option<seq<Value>>, encode: Document -> string)
    requires !HasBracketPair(text)
    ensures GenerateWorksheet(data, Some(text), parse, encode).Ok?
  {
    SamplesAlwaysLayOut(data);
  }
}
