# QuizBox worksheet generator: a Dafny model

QuizBox is a web application that turns a grade, a topic, a question count
and a choice of question kinds (multiple choice "选择题", fill-in-the-blank
"填空题") into a printable worksheet and, optionally, its answer key. A
language model writes the questions. The application cuts a JSON array out of
the model's reply, normalises each question, and falls back to canned sample
questions when that fails. It then lays the questions out as a student sheet
and an answer key, each delivered as a `data:` URL. Question texts may hold
LaTeX between `$...$` or `$$...$$`, and a small parser splits them into text
and math parts for rendering. The page keeps the form state. Two helper
components edit the topic (dictation, file notes, suggestions) and insert
LaTeX symbols at the cursor.

The model has one module per source file, plus four shared modules:

- `Wrappers`: `Option` and `Result`.
- `JsStrings`: the ECMAScript string operations the code relies on: `includes`, `startsWith`, `slice`, `trim`, `join`, `Number.parseInt`, and the decimal text of a number.
- `JsValues`: JavaScript values as `JSON.parse` yields them, with truthiness, property reads and object spread.
- `Seqs`: `filter`, remove-by-index, `indexOf` and de-duplication via `Set`.

The other five modules follow the source files:

- `Worksheet` (app/actions.ts): the part of the pipeline after the model call.
  - The greedy `/\[[\s\S]*\]/` match.
  - Per-element normalisation, with its exact exception behaviour.
  - `generateSampleQuestions`, a loop proved against a specification function.
  - The two documents, as sequences of per-question fragments.
  - `generateWorksheet`.
- `MathText` (components/math-renderer.tsx): `parseMathText`.
  - The regular expression `(\$\$[\s\S]*?\$\$|\$[^$\n]*?\$)` with the `g` flag is specified by `MatchAt` and `NextMatch`.
  - `Lex` cuts a text into unmatched gaps and matched spans.
  - The source's `while (regex.exec(...))` loop, `ParseMathText`, is proved to produce `Parts`.
  - `Parts` in turn equals the parts read off `Lex`'s tokens.
- `WorksheetPage` (app/page.tsx): the class `WorksheetForm`, holding the form fields, `isLoading` and `result`, with one method per handler.
- `MathEditor` (components/math-editor.tsx): the symbol table, its category tabs and `insertSymbol`.
- `TopicInput` (components/enhanced-topic-input.tsx): the string rules for dictation and file notes, the suggestion pick, and the class `TopicBox`.
  - `TopicBox` holds the topic text, the uploaded-file list and the timers that are still pending.

External effects are parameters:

- The model's reply is an `Option<string>`; `None` means the call failed.
- `JSON.parse` is a partial function `string -> Option<seq<Value>>`.
- The HTML-and-base64 serialisation of a document is a function `Document -> string`.
- `Math.random()` is a real in `[0, 1)`.
- Whether the browser offers speech recognition is a boolean.
- The cursor position is an `Option<nat>`.

Notes on what the code does, where one might expect otherwise:

- A failing model call is not caught by `generateQuestions`' `try` (app/actions.ts:73-77 lie outside it). It reaches `generateWorksheet`'s `catch`, which throws a new `Error("Failed to generate worksheet")` (app/actions.ts:36-39). The result is an error, not the fallback questions.
- The reply is used as it comes: there is no code-fence stripping, no bracket balancing, no repair of LaTeX escapes, no default for a missing field, and `options` is kept on fill-in questions. A multiple-choice question whose `options` is present, not null and not an array (a string, a number, a boolean or an object) therefore makes the student sheet throw, and the whole action then fails. A missing or null `options` gives an empty option list instead (app/actions.ts:145).
- Every `${...}` in the two documents converts a value to a string. A parsed object with its own `toString` property (for instance `{"toString": 1}`) cannot be converted and throws a TypeError, and so does an array holding one. The whole action then fails. `JsValues.Interpolates` says which values convert.
- The fallback produces `max(qcount, 0)` questions.
- A `$$` with no later closing `$$` is matched by the inline alternative as the two characters `$$`. Because it starts with `$$`, it becomes an empty math part in display mode.

## Model

| member | source | states |
|---|---|---|
| Worksheet.TypeMapping | app/actions.ts:44-47 | the mapping is defined for exactly the two labels "选择题" and "填空题" |
| Worksheet.ExtractJsonSpan | app/actions.ts:81-84 | a match exists iff some `[` precedes some `]`; it is the piece of the reply from the first `[` to the last `]`, both included |
| Worksheet.FindRequested | app/actions.ts:92 | `types.find(...)` gives the first requested type whose marker ("multiple" for a type containing "选择", else "fill") the model's type includes, or none; it throws exactly when `types` is non-empty and the model's type is neither a string nor an array |
| JsValues.ReadType | app/actions.ts:92 | reading `q.type` throws exactly for `null` and `undefined` |
| Worksheet.NormalisedType | app/actions.ts:90-93 | the new `type` is `typeMapping[found \|\| types[0]] \|\| q.type`; it fails exactly when `q` is null or undefined, or when `types` is non-empty and `q.type` has no `includes` |
| Worksheet.Normalise | app/actions.ts:87-94 | the id is the 1-based position and the type is the normalised type; the keys are the spread keys plus `id` and `type`, and every other property is copied unchanged |
| Worksheet.NormaliseFrom | app/actions.ts:87-94 | `map` succeeds iff every element normalises; it then gives one record per element, each the normalisation of the element at the same position |
| Worksheet.GenerateSampleQuestions | app/actions.ts:102-125 | the `for` loop returns exactly `SampleQuestions(data)` |
| Worksheet.SampleQuestionsShape | app/actions.ts:104-123 | there are `max(qcount, 0)` questions; question k has id k and a text naming the topic and k; all are multiple choice with 4 options and the first as answer when "选择题" is requested, otherwise all are fill-in with no options |
| Worksheet.GenerateQuestions | app/actions.ts:79-99 | whichever way the questions are obtained, normalised or fallback, question k is numbered k + 1 |
| Worksheet.NoArrayGivesSamples | app/actions.ts:79-99 | a reply with no `[` before a `]` gives the sample questions |
| Worksheet.ParseFailureGivesSamples | app/actions.ts:86-98 | a bracketed text that does not parse gives the sample questions |
| Worksheet.NormaliseFailureGivesSamples | app/actions.ts:87-98 | an element that throws during normalisation gives the sample questions |
| Worksheet.ParsedArrayGivesNormalisedQuestions | app/actions.ts:86-94 | a parsed array whose elements all normalise gives as many questions as elements, in order, with ids 1..N and the other fields passed through; `[]` gives `[]`, not the fallback |
| Worksheet.NormalisedTypeIsKnown | app/actions.ts:90-93 | with the form's own labels requested, a normalised type is "multiple-choice" or "fill-in-blank" |
| Worksheet.ModelTypeRecognised | app/actions.ts:92 | a model type mentioning only "multiple" becomes "multiple-choice" when "选择题" is requested; one mentioning only "fill" becomes "fill-in-blank" when "填空题" is requested |
| Worksheet.OptionList | app/actions.ts:145 | `q.options?.map` yields nothing for null or undefined, the elements of an array, and throws for any other value |
| Worksheet.StudentBlockOf | app/actions.ts:143-165 | a question's block carries its id and text, and lists the options exactly for "multiple-choice"; it throws exactly when the id or the text cannot be interpolated, or, for multiple choice, when the options cannot be mapped or one of them cannot be interpolated |
| Worksheet.AnswerBlockOf | app/actions.ts:264-272 | an answer entry carries the id and the answer, and the explanation exactly when it is truthy; it throws exactly when the id, the answer or a truthy explanation cannot be interpolated |
| Worksheet.MapQuestions | app/actions.ts:142-143 | `questions.map(f)` gives one result per question, in order, each `f` of that question, and fails iff `f` fails on some question |
| Worksheet.StudentSheetOf | app/actions.ts:141-167 | the student sheet names the topic and grade and has one block per question, in order; it fails iff some block fails |
| Worksheet.AnswerKeyOf | app/actions.ts:261-274 | the answer key names the topic and grade and has one entry per question, in order, with id and answer and the explanation exactly when it is truthy; it fails iff some entry fails |
| Worksheet.GenerateWorksheet | app/actions.ts:23-40 | fails exactly when the model call fails, the student sheet throws, or the key is wanted and throws; otherwise the student file is `data:text/html;base64,` followed by the encoded student sheet of the generated questions, the key file is the same prefix followed by the encoded answer key when `withKey` holds, and `""` exactly when it does not |
| Worksheet.SamplesAlwaysLayOut | app/actions.ts:141-167 | the sample questions always lay out, on the student sheet and in the answer key |
| Worksheet.NoArrayWorksheetSucceeds | app/actions.ts:23-40 | once the model answers, a reply without a bracketed array always yields files |
| JsStrings.NatToString | app/actions.ts:109 | the decimal text of `${i}` is non-empty, all digits, with no leading zero except for 0 |
| JsStrings.TrimShape | components/math-renderer.tsx:96-98 | `trim` keeps a contiguous piece that neither starts nor ends with whitespace, and everything it cuts is whitespace |
| MathText.DisplayClose | components/math-renderer.tsx:79 | the lazy body of `$$...$$` ends at the first `$$` at or after the search start, and there is none when it fails |
| MathText.InlineClose | components/math-renderer.tsx:79 | the lazy body of `$...$` ends at the first `$`, with no `$` or newline before it, and there is none when it fails |
| MathText.MatchAt | components/math-renderer.tsx:79 | a match starts at a `$` and is at least two characters long |
| MathText.MatchShape | components/math-renderer.tsx:79 | every match is a display span or an inline span; the display alternative wins where a closing `$$` exists; an unclosed `$$` matches as `$$` |
| MathText.LoneDollar | components/math-renderer.tsx:79 | a `$` where no match starts has a newline before every later `$` |
| MathText.NextMatch | components/math-renderer.tsx:84 | `exec` from `lastIndex` returns a match that starts at or after it and lies inside the text |
| MathText.NextMatchLeftmost | components/math-renderer.tsx:84 | `exec` returns the leftmost match, and `null` only when no match starts at or after `lastIndex` |
| MathText.Lex | components/math-renderer.tsx:81-115 | the gaps and spans tile the text from the start position to the end, in order, each non-empty |
| MathText.LexWellLexed | components/math-renderer.tsx:84-106 | every span is the match starting at its position, no match starts inside a gap, and a gap is always followed by a span |
| MathText.ConcatTiles | components/math-renderer.tsx:86-111 | tokens that tile a range, put back together, give that range of the text |
| MathText.LexCoversText | components/math-renderer.tsx:86-111 | the text before, between and after the matches, interleaved with the matches, is the whole input |
| MathText.PartsAreScanParts | components/math-renderer.tsx:86-114 | the parts are the gaps as text parts and the spans as math parts, in order |
| MathText.ParseMathText | components/math-renderer.tsx:75-118 | the loop over `regex.exec` returns exactly `Parts(text, 0)` |
| MathText.PartsAlternate | components/math-renderer.tsx:86-114 | text parts are non-empty, and a text part is always followed by a math part; a non-empty text gives at least one part |
| MathText.NoDollarOneText | components/math-renderer.tsx:84-114 | a text without `$` gives one text part equal to it, and the empty text gives none |
| MathText.MatchPart | components/math-renderer.tsx:94-104 | a display span gives its trimmed body in display mode; an inline span gives its trimmed body inline; an unclosed `$$` gives an empty display-mode part |
| WorksheetPage.ToggleType | app/page.tsx:50 | afterwards the type is in the list exactly when its box is checked, and every other type is listed as often as before |
| WorksheetPage.CheckAppends | app/page.tsx:50 | checking a type appends it after the earlier entries |
| WorksheetPage.UncheckRemoves | app/page.tsx:50 | unchecking removes every copy of the type and keeps each other entry, as often as before and in order |
| WorksheetPage.CheckThenUncheck | app/page.tsx:50 | checking then unchecking a type that was absent restores the list |
| WorksheetPage.QcountFromInput | app/page.tsx:196 | the count is never 0; it is the parsed integer whenever that is a non-zero number, and 10 otherwise (NaN or 0) |
| JsStrings.ParseIntOfDecimal | app/page.tsx:196 | `parseInt` of a number's decimal text gives the number back |
| WorksheetPage.QcountOfNumber | app/page.tsx:196 | typing a positive number sets the count to it |
| WorksheetPage.QcountOfEmptyOrZero | app/page.tsx:196 | an empty field and "0" both give 10 |
| WorksheetPage.WorksheetForm.constructor | app/page.tsx:34-45 | the form starts blank (`""`, `""`, 10, `[]`, key on), not loading, with no result |
| WorksheetPage.WorksheetForm.HandleTypeChange | app/page.tsx:47-52 | only `types` changes, to the toggled list |
| WorksheetPage.WorksheetForm.SetGrade | app/page.tsx:164 | only the grade changes |
| WorksheetPage.WorksheetForm.SetTopic | app/page.tsx:183 | only the topic changes |
| WorksheetPage.WorksheetForm.SetQcountInput | app/page.tsx:196 | only the count changes, to the parsed value or 10 |
| WorksheetPage.WorksheetForm.SetWithKey | app/page.tsx:222 | only the answer-key switch changes |
| WorksheetPage.WorksheetForm.Submit | app/page.tsx:54-72 | an empty grade, topic or type list starts nothing and changes nothing; otherwise loading ends false, and the result becomes the generated files on success and is unchanged on failure |
| WorksheetPage.WorksheetForm.Reset | app/page.tsx:124-133 | the form returns to its blank state and the result is cleared |
| MathEditor.CursorPosition | components/math-editor.tsx:54 | a missing selection start and a selection start of 0 both put the cursor at the end |
| MathEditor.InsertSymbol | components/math-editor.tsx:53-57 | the result is the text before the cursor, the symbol, then the rest; its length is the sum of the lengths |
| MathEditor.InsertAtEnd | components/math-editor.tsx:54-55 | with no selection or the cursor at 0 the symbol is appended |
| MathEditor.InsertThenCut | components/math-editor.tsx:55 | the symbol sits at the cursor, and cutting it out gives the original text back |
| MathEditor.Categories | components/math-editor.tsx:59 | the tabs have no duplicates, include every symbol's category, list only table categories, and follow first appearance |
| MathEditor.ToolbarFirstTab | components/math-editor.tsx:32-75 | with the toolbar's own table the tab list is non-empty and the tabs open on "基础", the first symbol's category |
| MathEditor.TabListsCategory | components/math-editor.tsx:87-88 | a tab lists exactly its category's symbols, each as often as in the table, in table order, and a listed category's tab is never empty |
| TopicInput.AppendTranscript | components/enhanced-topic-input.tsx:43 | the old text, then a space only when it was non-empty, then the transcript |
| TopicInput.FileNote | components/enhanced-topic-input.tsx:74 | the note starts with "基于上传的文件：" |
| TopicInput.JoinMentions | components/enhanced-topic-input.tsx:74 | every joined name occurs in the joined text |
| TopicInput.FileNoteMentionsEach | components/enhanced-topic-input.tsx:74 | the note names every uploaded file |
| TopicInput.AppendFileNote | components/enhanced-topic-input.tsx:75 | the captured text, then a newline only when it was non-empty, then the note |
| TopicInput.SuggestionIndex | components/enhanced-topic-input.tsx:94 | `Math.floor(rand * 8)` picks a valid index into the eight suggestions |
| TopicInput.TopicBox.constructor | components/enhanced-topic-input.tsx:16-19 | no files, no pending timers, not listening and not processing |
| TopicInput.TopicBox.SetValue | components/enhanced-topic-input.tsx:103 | typing replaces the text and nothing else |
| TopicInput.TopicBox.StartListening | components/enhanced-topic-input.tsx:24-39 | without browser support nothing happens; otherwise listening starts, and the result handler captures the current text |
| TopicInput.TopicBox.StopListening | components/enhanced-topic-input.tsx:46-63 | listening ends and nothing else changes |
| TopicInput.TopicBox.OnSpeechResult | components/enhanced-topic-input.tsx:41-44 | the text becomes the captured text with the transcript appended |
| TopicInput.TopicBox.HandleFileUpload | components/enhanced-topic-input.tsx:66-71 | zero files change nothing; otherwise the files are appended in order, processing starts, and a timer is queued with the current text and the file names |
| TopicInput.TopicBox.FinishFileProcessing | components/enhanced-topic-input.tsx:73-77 | the oldest timer sets the text to its captured text plus the note, and processing ends |
| TopicInput.TopicBox.RemoveFile | components/enhanced-topic-input.tsx:193 | exactly the entry at the index is dropped and the rest keep their order |
| TopicInput.TopicBox.ApplySuggestion | components/enhanced-topic-input.tsx:82-96 | the text becomes one of the eight fixed suggestions |

## Left out

- The language-model call and the prompt text (app/actions.ts:43 and 49-77) are left out. The call is a network request, so its reply is an input. The prompt is only passed to that call.
- `JSON.parse` is a parameter. It is not an implementation of RFC 8259.
- The HTML text and CSS of both documents, and their base64 encoding (RFC 4648 section 4), are abstracted. Only the per-question fragments and the `data:text/html;base64,` prefix are modelled.
- The text that `${...}` produces for a value (number formatting, arrays joined with commas, `[object Object]`) is not modelled. The fragments keep the raw values; only whether the conversion throws is modelled.
- Property lookups that reach `Object.prototype` are not modelled. For example, `typeMapping["toString"]` is treated as undefined.
- Numbers are exact reals and integers are unbounded. Precision beyond 2^53 is not modelled.
- `JsStrings.ParseInt` maps `-0` to 0. Both are falsy, so `|| 10` treats them alike.
- A non-integer `qcount` cannot occur: `parseInt` and the form only produce integers.
- Strings are sequences of Dafny characters, not UTF-16 code units. Surrogate pairs are not modelled.
- KaTeX rendering, the React components' markup, and `downloadFile`'s DOM work are not modelled.
- The `MathRenderer`/`MathText` components and the editor's edit/preview switch are not modelled.
- components/hero-section.tsx and components/math-guide.tsx are not modelled. They are static markup plus a menu flag, clipboard use and a timeout.
- Awaiting is one step. `Submit` runs generation to completion inside the call. Interleavings of other events with a pending generation are not modelled.
- `WorksheetPage.WorksheetForm.Submit` does not show the alert or console messages.
- The state between `setIsLoading(true)` and the await (the loading screen) is not observable in the model.
- `TopicInput.TopicBox.StartListening` sets `isListening` when recognition starts, instead of on the recognition's `onstart` event.
- `TopicInput.TopicBox.StopListening` stands for `stopListening`, `onend` and `onerror` alike.
- `TopicInput.TopicBox.FinishFileProcessing` fires the pending timers oldest first. All have the same two-second delay.
- The textarea that `document.activeElement` refers to is not modelled. `MathEditor.InsertSymbol` takes its selection start as a parameter.
