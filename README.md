# xml-question-maker in Dafny

A model of the quiz authoring tool "xml-question-maker". The tool keeps two
kinds of question in memory: "fastest finger" ordering questions (four
options and a four-slot correct order) and regular questions (four answers,
each with a `correct` flag). It imports questions from XML files and
spreadsheets, exports them to both formats, and lets the user add, edit,
select and count them.

The model has one module per source file:

- `Question`: the records (`src/types/question.ts`).
- `OrderCode`: `parseCorrectOrder`, which turns an order written as
  `ABCD`, `A-B-C-D`, `1234` or `1-2-3-4` back into an order.
- `XlsxImport`: `importXLSX`, which finds the sheets by name and walks
  their rows.
- `XmlTree` and `XmlImport`: `parseXML` over the element tree a
  `DOMParser` produces, and the hand-off to the store.
- `XmlExport`: `generateXML`, the string builder.
- `XlsxExport`: the row objects and the workbook of `downloadXLSX`.
- `QuestionsContext`: the question store, a class with two list fields.
- `SelectionBar`, `StatsPanel`, `ImportPanel`, `RegularForm`,
  `FastestForm`: the logic inside those components.

Three helper modules support the rest:

- `Wrappers` holds `Option` and `Result`.
- `JsString` holds the JavaScript string operations the code relies on:
  the `\s` class, `trim`, ASCII case mapping, `includes`, `endsWith`,
  `Number()` and the text `${n}` gives.
- `Seqs` holds `filter`, counting and `find`.

Code that updates state step by step is imperative Dafny:

- the store (`QuestionsContext.QuestionStore`);
- the forms' state (`RegularForm.Form`, `FastestForm.Form`);
- the import panel (`ImportPanel.Panel`);
- the workbook (`XlsxExport.Book`);
- the loops of `importXLSX`, `parseXML`, `selectAll`/`unselectAll` and
  `generateXML`.

Each of these methods is proved against a specification function. The
lemmas then state what the source promises about that function.

The two strongest results are:

- `OrderCode.ParseIffCode`: `parseCorrectOrder` yields an order `o`
  exactly when the input, with white space removed and letters lowered, is
  one of the four spellings of `o`.
- `XmlRoundTrip.ImportAfterExport`: `parseXML`, applied to the tree that
  `generateXML`'s text spells out, gives back exactly the records
  described there. `XmlExport.XmlTextIsExportTree` proves that the text is
  the declaration followed by the markup of that tree.

Some behaviour of the code that the model keeps as it is:

- Imported text is stored as read, with no sanitizing (`src/utils/xmlImport.ts:17-21`, `src/utils/xlsxImport.ts:96-102`).
- Neither import limits the number of rows or records (`src/utils/xlsxImport.ts:92`, `src/utils/xmlImport.ts:44`).
- The XML difficulty is `Number(...) || 0`, with no range check (`src/utils/xmlImport.ts:26`).
- An order is accepted when its four slots are among a..d. Repeated slots are accepted too (`src/utils/xlsxImport.ts:50-53`).
- XML-imported regular questions get the category `""` when the element is missing (`src/utils/xmlImport.ts:46`). Spreadsheet-imported ones always get "Imported" (`src/utils/xlsxImport.ts:109`).
- The spreadsheet import starts at row 3 of each sheet (`src/utils/xlsxImport.ts:92`, `src/utils/xlsxImport.ts:129`). The export writes one header object before the data (`src/utils/xlsxExport.ts:28-31`).
- A spreadsheet row is read when it has at least 6 cells (`src/utils/xlsxImport.ts:94`). A regular row needs only one non-empty option (`src/utils/xlsxImport.ts:106`).
- The XML export writes text without escaping (`src/utils/xmlExport.ts:12-16`).
- In the XML mode, a file that is not XML still imports "successfully". `DOMParser` reports the error inside the document, so nothing is found. `setQuestions` then empties the regular list (`src/utils/xmlImport.ts:9-10`, `src/context/QuestionsContext.tsx:137`, `src/components/ImportPanel.tsx:57-59`). This case is reachable: switching tabs keeps the chosen file.

## Model

| member | source | states |
|---|---|---|
| Question.Order.WithSlot | src/components/FastestFingerForm.tsx:42-47 | `{ ...correctOrder, [position]: value }`: slot `p` holds the value and every other slot is unchanged |
| Question.Options.With | src/components/FastestFingerForm.tsx:35-40 | `{ ...answers, [key]: value }`: option `k` holds the value and the other three are unchanged |
| Question.Answers.With | src/components/RegularQuestionForm.tsx:48-56 | answer `k` is replaced and the other three are unchanged |
| Question.CorrectCount | src/types/question.ts:25-30 | the number of correct answers is at most 4, and 0 exactly when no flag is set |
| Question.FirstCorrectUnique | src/components/RegularQuestionForm.tsx:34-38 | some answer is correct iff a first correct key exists, and that first key is unique |
| Question.OrderSlotsMayRepeat | src/types/question.ts:11-16 | the declared order type admits a well-typed order that is not a permutation |
| Question.AllAnswersMayBeCorrect | src/types/question.ts:25-30 | nothing in the answer type limits the correct count: all four may be correct |
| JsString.RemoveWhitespace | src/utils/xlsxImport.ts:11 | `replace(/\s/g, '')` leaves no white space, is never longer, and is the identity on white-space-free text |
| JsString.RemoveWhitespaceIsFilter | src/utils/xlsxImport.ts:11 | `replace(/\s/g, '')` keeps exactly the characters that are not white space, in their order |
| JsString.RemoveWhitespaceAppend | src/utils/xlsxImport.ts:11 | removing white space from two joined texts removes it from each part |
| JsString.Trim | src/utils/xlsxImport.ts:96 | `trim()` neither starts nor ends with white space and is never longer than the text |
| JsString.TrimStartDropsWhitespace | src/utils/xlsxImport.ts:96 | every character dropped in front of the kept text is white space |
| JsString.TrimEndDropsWhitespace | src/utils/xlsxImport.ts:96 | every character dropped behind the kept text is white space |
| JsString.TrimKeepsMiddle | src/utils/xlsxImport.ts:96 | `trim()` is a contiguous part of the text, and every character dropped before or after it is white space |
| JsString.TrimEmptyIff | src/utils/xlsxImport.ts:96-97 | `trim()` gives "" exactly for text that is all white space, so only blank cells and texts are dropped |
| JsString.TrimIdempotent | src/utils/xlsxImport.ts:96-103 | trimming a trimmed cell changes nothing |
| JsString.Upper | src/utils/xlsxImport.ts:103 | `toUpperCase()` keeps the length and maps each character |
| JsString.Lower | src/utils/xlsxImport.ts:18 | `toLowerCase()` keeps the length and maps each character |
| JsString.LowerAbsorbs | src/utils/xlsxImport.ts:18 | lowering after upper-casing is lowering, and lowering twice is lowering once |
| JsString.IntToDecimal | src/utils/xmlExport.ts:11 | the text `${n}` writes is non-empty and trimmed |
| JsString.NumberOfDecimal | src/utils/xmlImport.ts:26 | `Number` reads the text `${n}` writes back as `n` |
| OrderCode.Characters | src/utils/xlsxImport.ts:18 | `split('')` gives one part per character |
| OrderCode.Split | src/utils/xlsxImport.ts:22 | `split('-')` always gives at least one part |
| OrderCode.MapDigits | src/utils/xlsxImport.ts:26-34 | the digit-to-letter `map` keeps the number of parts |
| OrderCode.ParseCorrectOrder | src/utils/xlsxImport.ts:7-61 | every slot of a non-null result is one of a..d |
| OrderCode.OrderOfArray | src/utils/xlsxImport.ts:50-60 | the length and `every` tests pass only well-typed orders |
| OrderCode.LettersArray | src/utils/xlsxImport.ts:17-19 | text of the form `ABCD` gives its four letters, lowered, in order |
| OrderCode.DashedLettersArray | src/utils/xlsxImport.ts:21-23 | text of the form `A-B-C-D` gives the letters between the dashes, lowered |
| OrderCode.DigitsArray | src/utils/xlsxImport.ts:25-35 | text of the form `1234` gives the letter each digit names |
| OrderCode.DashedDigitsArray | src/utils/xlsxImport.ts:37-47 | text of the form `1-2-3-4` gives the letter each digit names |
| OrderCode.FormGivesFourLabels | src/utils/xlsxImport.ts:17-53 | once a format test matches, the array holds four labels, so the later tests never reject; if none matches, the array is empty |
| OrderCode.ParseSucceedsIffForm | src/utils/xlsxImport.ts:8-53 | the parse succeeds iff the white-space-free text has one of the four forms |
| OrderCode.OrderOfArrayIff | src/utils/xlsxImport.ts:50-60 | the array gives order `o` iff `o` is well typed and the array is its four slots |
| OrderCode.ParseCleaned | src/utils/xlsxImport.ts:8-11 | only the white-space-free text matters, and empty input gives null |
| OrderCode.LabelIsOneChar | src/utils/xlsxImport.ts:26-34 | a label is one character a..d, and the digit that names it maps back to it |
| OrderCode.DigitRoundTrip | src/utils/xlsxImport.ts:26-34 | a digit 1..4 maps to a label whose digit is the original digit |
| OrderCode.DigitLetter | src/utils/xlsxImport.ts:28-31 | digit k names the k-th letter, one of a..d |
| OrderCode.CodeChars | src/utils/xlsxImport.ts:17-47 | the four spellings of a well-typed order, character by character |
| OrderCode.LetterCodeIff | src/utils/xlsxImport.ts:17-19 | lowered text spells `o` as `abcd` iff it has the `ABCD` form and gives `o`'s slots |
| OrderCode.DashedLetterCodeIff | src/utils/xlsxImport.ts:21-23 | the same for `a-b-c-d` |
| OrderCode.DashedLetterCodeForm | src/utils/xlsxImport.ts:21-23 | text that spells `o` as `a-b-c-d` has the dashed form and gives `o`'s slots |
| OrderCode.DigitCodeIff | src/utils/xlsxImport.ts:25-35 | the same for `1234` |
| OrderCode.DashedDigitCodeIff | src/utils/xlsxImport.ts:37-47 | the same for `1-2-3-4` |
| OrderCode.ArrayIffCode | src/utils/xlsxImport.ts:17-47 | on white-space-free text, the array is `o`'s slots iff the lowered text is a spelling of `o` |
| OrderCode.ParseIffCode | src/utils/xlsxImport.ts:7-61 | the parse yields `o` iff `o` is well typed and the lowered white-space-free input is one of its four spellings |
| OrderCode.ParseDependsOnLowered | src/utils/xlsxImport.ts:11-22 | two inputs that agree after removing white space and lowering parse alike |
| OrderCode.ParseIgnoresCase | src/utils/xlsxImport.ts:17-22 | upper- or lower-casing the input does not change the result |
| OrderCode.ParseIgnoresWhitespace | src/utils/xlsxImport.ts:11 | white space anywhere in the input does not change the result |
| OrderCode.LetterCodeIsLower | src/utils/xlsxImport.ts:17-18 | the `abcd` spelling of a well-typed order is four lower-case letters a..d with no white space |
| OrderCode.ParseOfUpperLetterCode | src/utils/xlsxImport.ts:17-18 | the upper-case spelling an export writes reads back as the same order |
| OrderCode.SpacedCleaned | src/utils/xlsxImport.ts:11 | white space between four letters is removed |
| OrderCode.LettersParse | src/utils/xlsxImport.ts:17-18 | any four letters A..D or a..d give their lowered letters, in order |
| OrderCode.DashedLettersParse | src/utils/xlsxImport.ts:21-22 | the dashed form of four letters gives the same order |
| OrderCode.SpacedLettersParse | src/utils/xlsxImport.ts:11-18 | four letters with white space between them give the same order as the letters alone |
| OrderCode.DigitsParse | src/utils/xlsxImport.ts:25-34 | four digits 1..4 give the letters they name, in order |
| OrderCode.DashedDigitsParse | src/utils/xlsxImport.ts:37-46 | the dashed form of four digits gives the same |
| OrderCode.ParseExampleSpaced | src/utils/xlsxImport.ts:11 | `"a b c d"` gives a, b, c, d |
| OrderCode.ParseExampleUpper | src/utils/xlsxImport.ts:17-18 | `"ABCD"` gives a, b, c, d |
| OrderCode.ParseExampleDashed | src/utils/xlsxImport.ts:21-22 | `"A-B-C-D"` gives a, b, c, d |
| OrderCode.ParseExampleLetters | src/utils/xlsxImport.ts:17-18 | `"BADC"` gives b, a, d, c |
| OrderCode.ParseExampleDigits | src/utils/xlsxImport.ts:25-34 | `"2143"` gives b, a, d, c, the same as `"BADC"` |
| OrderCode.ParseExampleDashedDigits | src/utils/xlsxImport.ts:37-46 | `"2-1-4-3"` gives b, a, d, c |
| OrderCode.ParseAcceptsDuplicates | src/utils/xlsxImport.ts:53-60 | `"AABB"` parses, to an order that is not a permutation |
| OrderCode.ParseRejectsShort | src/utils/xlsxImport.ts:50 | three letters give null |
| OrderCode.ParseRejectsForeignLetter | src/utils/xlsxImport.ts:17 | a letter outside A..D gives null |
| OrderCode.ParseRejectsForeignDigit | src/utils/xlsxImport.ts:25 | a digit outside 1..4 gives null |
| XlsxImport.CellText | src/utils/xlsxImport.ts:96-103 | `row[i]?.toString().trim() \|\| ''` is trimmed, and a missing cell reads as `""` |
| XlsxImport.RegularsFrom | src/utils/xlsxImport.ts:92-120 | the regular loop pushes at most one record per row |
| XlsxImport.RegularsFromSnoc | src/utils/xlsxImport.ts:106-118 | one more row adds its record, with the next id, exactly when the row is kept |
| XlsxImport.FirstFastest | src/utils/xlsxImport.ts:129-156 | a taken ordering question has the given id and is selected |
| XlsxImport.ReadRegularRow | src/utils/xlsxImport.ts:93-119 | the loop body skips a short, untitled or option-less row and otherwise builds the row's record |
| XlsxImport.ReadRegularSheet | src/utils/xlsxImport.ts:92-120 | the loop from row 3 gives `RegularsFrom` of the data rows |
| XlsxImport.ReadFastestRow | src/utils/xlsxImport.ts:130-155 | the loop body skips an invalid row and otherwise builds the question it breaks with |
| XlsxImport.ReadFastestSheet | src/utils/xlsxImport.ts:129-156 | the loop and its `break` give the question of the first valid row |
| XlsxImport.ReadFastestTurn | src/utils/xlsxImport.ts:130-155 | one turn of the loop either yields the sheet's question, which ends the loop, or passes the search on to the next row |
| XlsxImport.FastestCellsFilledIff | src/utils/xlsxImport.ts:133-145 | the cells test of an ordering row asks for a non-empty trimmed question and four non-empty trimmed options |
| XlsxImport.ReadWorkbook | src/utils/xlsxImport.ts:73-157 | the sheet lookup, the error and both loops give `ImportResult` |
| XlsxImport.ImportXlsx | src/utils/xlsxImport.ts:63-166 | on success the store holds the records as `setQuestions` sets them; on the error it is unchanged |
| XlsxImport.ImportFailsIff | src/utils/xlsxImport.ts:73-81 | the import throws iff no sheet name passes either name test, and then with the stated message |
| XlsxImport.ExportedSheetNamesFound | src/utils/xlsxImport.ts:73-77 | the names the export writes pass the lookup tests |
| XlsxImport.HeaderRowsIgnored | src/utils/xlsxImport.ts:92-131 | rows 0..2 never matter: sheets that agree from row 3 on import alike |
| XlsxImport.RegularsFromIsFilterThenBuild | src/utils/xlsxImport.ts:92-120 | the loop equals keeping the passing rows and then building the k-th kept row with the k-th id |
| XlsxImport.RegularProvenance | src/utils/xlsxImport.ts:92-120 | every pushed record comes from a kept row |
| XlsxImport.RegularFromRowFacts | src/utils/xlsxImport.ts:103-117 | a record has category "Imported", is unselected, has no difficulty and trimmed texts with some option non-empty; at most one answer is correct, the one whose label is the upper-cased column 6 |
| XlsxImport.FastestFromRowFacts | src/utils/xlsxImport.ts:140-153 | the ordering question is selected, has difficulty 0 (outside 1..3), non-empty texts and the parsed order of column 6 |
| XlsxImport.FastestStep | src/utils/xlsxImport.ts:129-156 | one turn of the loop either ends with the sheet's question or passes the search on to the next row |
| XlsxImport.FirstFastestNoneIff | src/utils/xlsxImport.ts:129-156 | no ordering question is taken iff no row from index 3 on is valid |
| XlsxImport.FirstFastestIsFirstValid | src/utils/xlsxImport.ts:145-154 | the question taken is built from the first valid row after the header rows |
| XlsxImport.RegularIds | src/utils/xlsxImport.ts:108 | the k-th regular record has the k-th id |
| XlsxImport.ImportIds | src/utils/xlsxImport.ts:108-147 | the regular records take uuid(0), uuid(1), ..., and the ordering question takes the next id |
| XmlTree.First | src/utils/xmlImport.ts:13-25 | `querySelector` gives a matching element of the list, and nothing iff none matches |
| XmlTree.All | src/utils/xmlImport.ts:42 | `querySelectorAll` keeps exactly the matches |
| XmlTree.GetAttribute | src/utils/xmlImport.ts:26 | `getAttribute` gives the value of an attribute with that name, and null iff there is none |
| XmlTree.AttrValue | src/utils/xmlImport.ts:61 | an attribute list's value for a name is one of its entries, and absent iff no entry has the name |
| XmlTree.WalkAppend | src/utils/xmlImport.ts:42 | document order over two forests is the order of each, one after the other |
| XmlTree.FirstAppend | src/utils/xmlImport.ts:13 | the first match in two runs is the first run's match, if any |
| XmlTree.AllAppend | src/utils/xmlImport.ts:42 | all matches in two runs are those of each run, in order |
| XmlImport.DifficultyOf | src/utils/xmlImport.ts:26 | `Number(attr) \|\| 0` gives the number, or 0 when the attribute is absent or not a number |
| XmlImport.QuestionText | src/utils/xmlImport.ts:45 | the question text is trimmed |
| XmlImport.QuestionsFrom | src/utils/xmlImport.ts:44-79 | the `forEach` pushes at most one record per element |
| XmlImport.ReadQuestions | src/utils/xmlImport.ts:41-79 | the `forEach` loop gives `QuestionsFrom` |
| XmlImport.ParseXml | src/utils/xmlImport.ts:5-82 | `parseXML` gives `ParseResult` of the document |
| XmlImport.ImportXml | src/utils/xmlImport.ts:84-96 | `importXML` passes the parse result to `setQuestions` |
| XmlImport.FastestOfFacts | src/utils/xmlImport.ts:13-37 | the first `fastest` element gives a record iff its text and four options are non-empty. The text and all four options are taken untrimmed. Each order slot is its element's text, or a, b, c, d when that element is missing or empty. The difficulty is coerced and the record is unselected |
| XmlImport.DifficultyOfDecimal | src/utils/xmlImport.ts:26 | a written integer reads back as itself, and an absent attribute gives 0 |
| XmlImport.RegularOfFacts | src/utils/xmlImport.ts:45-77 | a kept record has its trimmed text and category, is unselected and has no difficulty; an answer is correct iff its element's `correct` is exactly "yes"; a missing option element gives `""` and not correct |
| XmlImport.QuestionsFromFilter | src/utils/xmlImport.ts:42-79 | one record per kept `question` element, in document order, each with the next id |
| XmlImport.QuestionsFromIds | src/utils/xmlImport.ts:54-77 | the loop's records are unselected, with no difficulty, and take consecutive ids |
| XmlImport.ParseResultSelectionAndIds | src/utils/xmlImport.ts:30-76 | nothing imported is selected, and the ids follow call order: the ordering question first |
| XmlImport.NoFastestElement | src/utils/xmlImport.ts:13-16 | a document without a `fastest` element gives no ordering question |
| XmlExport.YesNo | src/utils/xmlExport.ts:31-34 | the mark is "yes" iff the flag is set |
| XmlExport.GenerateXml | src/utils/xmlExport.ts:3-40 | the text built with `+=` is `XmlText` |
| XmlExport.WithQuestionsPrefix | src/utils/xmlExport.ts:27-36 | each turn of the `forEach` appends that question's block after the earlier ones |
| XmlExport.AppendFastest | src/utils/xmlExport.ts:10-24 | the `+=` lines of the `fastest` block give `WithFastest` |
| XmlExport.AppendQuestion | src/utils/xmlExport.ts:28-35 | the `+=` lines of one question give `WithQuestion` |
| XmlExport.QuestionElements | src/utils/xmlExport.ts:27-36 | one `question` element per regular question, in order |
| XmlExport.OrderMarkup | src/utils/xmlExport.ts:17-22 | the six `correctOrder` lines are the order element's markup, with the slots in the order one to four, verbatim |
| XmlExport.FastestMarkup | src/utils/xmlExport.ts:10-24 | the `fastest` lines are one element, written on a line of its own |
| XmlExport.QuestionMarkup | src/utils/xmlExport.ts:28-35 | a question's lines are its element, written on a line of its own |
| XmlExport.QuestionsMarkup | src/utils/xmlExport.ts:27-36 | the `forEach` writes one line per question element, in input order |
| XmlExport.XmlTextLines | src/utils/xmlExport.ts:7-38 | the text is the opening, one line per top element, then the closing tag |
| XmlExport.XmlTextIsExportTree | src/utils/xmlExport.ts:3-40 | the text is the declaration followed by the unescaped markup of `ExportTree` |
| XmlExport.XmlTextFrame | src/utils/xmlExport.ts:7-39 | the text starts with the declaration and `<questions>` and ends with `</questions>` |
| XmlExport.FastestTag | src/utils/xmlExport.ts:11 | the ordering question is written as a `fastest` element |
| XmlExport.QuestionTag | src/utils/xmlExport.ts:28 | a regular question is written as a `question` element |
| XmlExport.TopElementsShape | src/utils/xmlExport.ts:10-36 | the `fastest` element comes first iff there is an ordering question; then one `question` element per regular question, in input order |
| XmlExport.ExportTreeElements | src/utils/xmlExport.ts:7-38 | the elements directly under the root are the top elements |
| XmlRoundTrip.FastestReadBack | src/utils/xmlImport.ts:13-37 | an exported `fastest` element reads back with the same texts and difficulty, unselected and with defaulted empty slots, when its text and options are non-empty |
| XmlRoundTrip.AnswerReadBack | src/utils/xmlImport.ts:49-74 | an exported answer reads back as itself |
| XmlRoundTrip.QuestionTextReadBack | src/utils/xmlImport.ts:45-46 | an exported question's text reads back trimmed, and its category element is found |
| XmlRoundTrip.RegularReadBack | src/utils/xmlImport.ts:45-77 | an exported question is kept iff its trimmed text is non-empty; it then reads back trimmed, unselected and without difficulty |
| XmlRoundTrip.QuestionSubtree | src/utils/xmlImport.ts:13-42 | a question element holds no other `question` element and no `fastest` element |
| XmlRoundTrip.QuestionsSubtrees | src/utils/xmlImport.ts:42 | the exported question subtrees give exactly their own `question` elements, in order |
| XmlRoundTrip.ExportedElements | src/utils/xmlExport.ts:7-38 | the document's elements are the root, the `fastest` subtree if any, then the question subtrees |
| XmlRoundTrip.ExportedFastestNode | src/utils/xmlImport.ts:13 | `querySelector('fastest')` on an export finds its `fastest` element exactly when one was written |
| XmlRoundTrip.ExportedQuestionNodes | src/utils/xmlImport.ts:42 | `querySelectorAll('question')` on an export gives one element per regular question, in order |
| XmlRoundTrip.QuestionsReadBack | src/utils/xmlImport.ts:44-79 | the `forEach` over the exported question elements gives `RereadAll` |
| XmlRoundTrip.ImportAfterExport | src/utils/xmlImport.ts:5-82 | importing an export: the ordering question comes back when its text and options are non-empty, and the regular questions with non-blank text come back in order, with the next ids |
| XmlRoundTrip.RereadAllIsFilter | src/utils/xmlImport.ts:44-79 | the regular records that come back are one per question with non-blank text, the k-th with the k-th id |
| XmlRoundTrip.RereadAllOfTrimmed | src/utils/xmlImport.ts:44-79 | trimmed questions with text all come back, changed only in id, selection and difficulty |
| XmlRoundTrip.ImportAfterExportOfTrimmed | src/utils/xmlImport.ts:5-82 | an export of trimmed regular questions with text imports back to the same list, up to id, selection and difficulty |
| XmlRoundTrip.FastestAfterExport | src/utils/xmlImport.ts:13-37 | an ordering question with non-empty texts and slots comes back whole, unselected, with the first id |
| XlsxExport.Keys | src/utils/xlsxExport.ts:29 | the keys of an object, in insertion order |
| XlsxExport.Put | src/utils/xlsxExport.ts:29 | `{ ...obj, [key]: v }`: a new key goes last; an existing key keeps its place and takes the value; other entries are unchanged |
| XlsxExport.AnswerLabel | src/utils/xlsxExport.ts:21 | `ANSWER` is "" iff no answer is correct, and otherwise the label of the first correct answer in A..D order |
| XlsxExport.DifficultyCell | src/utils/xlsxExport.ts:22 | `DIFFICULTY` is the difficulty unchanged, and undefined when there is none |
| XlsxExport.UpperEach | src/utils/xlsxExport.ts:44 | `map(letter => letter.toUpperCase())` upper-cases each slot |
| XlsxExport.RegularRows | src/utils/xlsxExport.ts:13-24 | one row object per regular question, in order |
| XlsxExport.Book.AppendSheet | src/utils/xlsxExport.ts:34 | `book_append_sheet` adds the name last and maps it to the data |
| XlsxExport.DownloadXlsx | src/utils/xlsxExport.ts:10-68 | the NORMAL sheet is always added, with the header object and the rows; FASTEST FINGER FIRST is added, after it, iff an ordering question is given |
| XlsxExport.EchoKeysAppends | src/utils/xlsxExport.ts:29 | the `reduce` over distinct fresh keys appends each key mapped to itself |
| XlsxExport.HeaderObjectOfDistinct | src/utils/xlsxExport.ts:29 | the header object of distinct names maps each name to itself, in column order |
| XlsxExport.HeaderObjects | src/utils/xlsxExport.ts:27-64 | both header rows map every column name to itself |
| XlsxExport.RowsLineUp | src/utils/xlsxExport.ts:13-57 | a data row has exactly the header's keys in the header's order |
| XlsxExport.NormalDataShape | src/utils/xlsxExport.ts:28-31 | the NORMAL data is the header object, then one row per question, even when there are none |
| XlsxExport.OrderColumnFacts | src/utils/xlsxExport.ts:39-46 | `CORRECT ORDER` is the four slots upper-cased and joined; for a well-typed order it has 4 characters and the spreadsheet import parses it back to the same order |
| XlsxExport.AnswerLabelIsFirstCorrect | src/utils/xlsxExport.ts:21 | `ANSWER` is the label of `k` iff `k` is the first correct answer |
| XlsxExport.RowCells | src/utils/xlsxExport.ts:28 | a row object as a sheet row is its values in key order |
| XlsxExport.RegularRowCells | src/utils/xlsxExport.ts:13-24 | the import's rule reads a NORMAL row's cells as the trimmed texts and the `ANSWER` label |
| XlsxExport.RegularRowKeptIff | src/utils/xlsxExport.ts:13-24 | the import keeps a NORMAL row iff the trimmed question and some trimmed answer are non-empty |
| XlsxExport.RegularRowReadBack | src/utils/xlsxExport.ts:13-24 | a NORMAL row reads back with trimmed texts, category "Imported", no difficulty, and only the first correct answer correct |
| XlsxExport.OrderColumnTrimmed | src/utils/xlsxExport.ts:39-46 | the `CORRECT ORDER` of a well-typed order has no white space at either end |
| XlsxExport.FastestRowCells | src/utils/xlsxExport.ts:48-57 | the import's rule reads a FASTEST FINGER FIRST row's text cells as the trimmed texts |
| XlsxExport.FastestOrderCell | src/utils/xlsxExport.ts:55 | the order cell reads as the `CORRECT ORDER` text itself |
| XlsxExport.FastestRowReadBack | src/utils/xlsxExport.ts:48-57 | the row is taken iff the trimmed texts are non-empty; it then reads back trimmed with the same order, selected, difficulty 0 |
| QuestionsContext.AddedFastest | src/context/QuestionsContext.tsx:33-37 | the added record has the fresh id, is unselected, and otherwise equals the given one |
| QuestionsContext.AddedRegular | src/context/QuestionsContext.tsx:48-52 | the same for a regular question |
| QuestionsContext.UpdatedFastest | src/context/QuestionsContext.tsx:63-65 | the update keeps the list's length |
| QuestionsContext.UpdatedRegular | src/context/QuestionsContext.tsx:75-77 | the update keeps the list's length |
| QuestionsContext.SelectOnly | src/context/QuestionsContext.tsx:107-110 | the ordering toggle keeps the list's length |
| QuestionsContext.FlipSelected | src/context/QuestionsContext.tsx:115-117 | the regular toggle keeps the list's length |
| QuestionsContext.FirstSelected | src/context/QuestionsContext.tsx:121 | `find(q => q.selected) \|\| null`: null iff none is selected, else the first selected entry |
| QuestionsContext.QuestionStore.constructor | src/context/QuestionsContext.tsx:28-29 | both lists start empty |
| QuestionsContext.QuestionStore.AddFastest | src/context/QuestionsContext.tsx:31-44 | appends the added record and leaves the regular list unchanged |
| QuestionsContext.QuestionStore.AddRegular | src/context/QuestionsContext.tsx:46-59 | appends the added record and leaves the ordering list unchanged |
| QuestionsContext.QuestionStore.UpdateFastest | src/context/QuestionsContext.tsx:61-71 | the ordering list becomes `UpdatedFastest` |
| QuestionsContext.QuestionStore.UpdateRegular | src/context/QuestionsContext.tsx:73-83 | the regular list becomes `UpdatedRegular` |
| QuestionsContext.QuestionStore.DeleteFastest | src/context/QuestionsContext.tsx:85-93 | the ordering list becomes its filter by id |
| QuestionsContext.QuestionStore.DeleteRegular | src/context/QuestionsContext.tsx:95-103 | the regular list becomes its filter by id |
| QuestionsContext.QuestionStore.ToggleFastest | src/context/QuestionsContext.tsx:105-112 | the ordering list becomes `SelectOnly` |
| QuestionsContext.QuestionStore.ToggleRegular | src/context/QuestionsContext.tsx:114-118 | the regular list becomes `FlipSelected` |
| QuestionsContext.QuestionStore.GetSelectedFastest | src/context/QuestionsContext.tsx:120-122 | returns the first selected ordering question |
| QuestionsContext.QuestionStore.GetSelectedRegular | src/context/QuestionsContext.tsx:124-126 | returns the selected regular questions |
| QuestionsContext.QuestionStore.SetQuestions | src/context/QuestionsContext.tsx:128-138 | the regular list is always replaced; the ordering list becomes the singleton, or is kept when given null |
| QuestionsContext.AddKeepsUniqueIds | src/context/QuestionsContext.tsx:33-38 | adding with an unused id keeps the ids unique |
| QuestionsContext.UpdatedFastestEntries | src/context/QuestionsContext.tsx:63-65 | only entries with the id change, each by the patch, in place |
| QuestionsContext.UpdatedRegularEntries | src/context/QuestionsContext.tsx:75-77 | only entries with the id change, each by the patch, in place |
| QuestionsContext.PatchFastestFields | src/context/QuestionsContext.tsx:64 | a field present in the partial overwrites; an absent one is kept; an empty partial changes nothing |
| QuestionsContext.PatchRegularFields | src/context/QuestionsContext.tsx:76 | the same for regular questions, with an explicit undefined difficulty copied |
| QuestionsContext.FullPatchReplaces | src/context/QuestionsContext.tsx:61-83 | a whole record passed as the partial replaces the entry |
| QuestionsContext.UpdateMissingId | src/context/QuestionsContext.tsx:63-65 | updating an id nobody has changes nothing |
| QuestionsContext.DeletedFastestExactly | src/context/QuestionsContext.tsx:87 | a record survives the delete iff it was there and has another id |
| QuestionsContext.DeletedRegularExactly | src/context/QuestionsContext.tsx:97 | a record survives the delete iff it was there and has another id |
| QuestionsContext.DeletedRegularAppend | src/context/QuestionsContext.tsx:97 | the delete works piecewise, so the rest keep their order |
| QuestionsContext.DeletedFastestAppend | src/context/QuestionsContext.tsx:87 | the delete works piecewise, so the rest keep their order |
| QuestionsContext.SelectOnlyEntries | src/context/QuestionsContext.tsx:107-110 | after the ordering toggle, exactly the entries with the id are selected, and nothing else changes |
| QuestionsContext.SelectOnlyAtMostOne | src/context/QuestionsContext.tsx:105-111 | with unique ids, at most one ordering question is selected after the toggle |
| QuestionsContext.SelectOnlyIdempotent | src/context/QuestionsContext.tsx:107-110 | toggling the selected entry keeps it selected, and the toggle is idempotent |
| QuestionsContext.SelectOnlyTwice | src/context/QuestionsContext.tsx:107-110 | a later ordering toggle overrides an earlier one |
| QuestionsContext.FlipSelectedEntries | src/context/QuestionsContext.tsx:115-117 | the regular toggle flips only the entries with the id |
| QuestionsContext.FlipSelectedInvolution | src/context/QuestionsContext.tsx:115-117 | toggling twice restores the list |
| QuestionsContext.SelectedRegularExactly | src/context/QuestionsContext.tsx:125 | a record is returned iff it is in the list and selected |
| QuestionsContext.FirstSelectedAfterToggle | src/context/QuestionsContext.tsx:105-122 | after toggling a present id, the selected ordering question is the first entry with it |
| SelectionBar.RegularIdsWhere | src/components/SelectionBar.tsx:23-24 | the ids with the given flag, at most one per entry |
| SelectionBar.FastestIdsWhere | src/components/SelectionBar.tsx:26-27 | the ids with the given flag, at most one per entry |
| SelectionBar.FlipEach | src/components/SelectionBar.tsx:23-25 | the regular toggles in turn keep the list's length |
| SelectionBar.SelectEach | src/components/SelectionBar.tsx:26-28 | the ordering toggles in turn keep the list's length |
| SelectionBar.Shown | src/components/SelectionBar.tsx:15-41 | nothing is shown iff both lists are empty; otherwise the total is selected regular plus selected ordering |
| SelectionBar.SelectAll | src/components/SelectionBar.tsx:22-29 | the store's lists become the toggles of the unselected ids, over the snapshot taken at the start |
| SelectionBar.UnselectAll | src/components/SelectionBar.tsx:31-38 | the store's lists become the toggles of the selected ids, over the snapshot taken at the start |
| SelectionBar.FlipEachEntry | src/components/SelectionBar.tsx:23-25 | each entry is flipped once per occurrence of its id, and nothing else changes |
| SelectionBar.OccurrencesOfRegularIds | src/components/SelectionBar.tsx:23-24 | with unique ids, each entry's id is listed once if it has the flag and not at all otherwise |
| SelectionBar.AbsentId | src/components/SelectionBar.tsx:23-24 | an id no entry has is not listed |
| SelectionBar.SelectAllSelectsEveryRegular | src/components/SelectionBar.tsx:23-25 | with unique ids, "Select All" selects every regular question and changes nothing else |
| SelectionBar.UnselectAllClearsEveryRegular | src/components/SelectionBar.tsx:32-34 | with unique ids, "Unselect All" unselects every regular question and changes nothing else |
| SelectionBar.DuplicateIdsDefeatSelectAll | src/components/SelectionBar.tsx:23-25 | two entries that share an unselected id toggle each other back, so both remain unselected |
| SelectionBar.SelectEachIsLast | src/components/SelectionBar.tsx:26-28 | a run of ordering toggles is the last one alone |
| SelectionBar.FastestIdsWhereFacts | src/components/SelectionBar.tsx:26-27 | an id is listed iff some entry has the flag, and the last one listed belongs to such an entry |
| SelectionBar.SelectAllFastest | src/components/SelectionBar.tsx:26-28 | "Select All" leaves the ordering list unchanged when all are selected, and otherwise selects exactly the id of the last unselected entry |
| SelectionBar.SelectAllFastestAtMostOne | src/components/SelectionBar.tsx:26-28 | with unique ids, at most one ordering question is selected afterwards |
| SelectionBar.UnselectAllKeepsFastestSelected | src/components/SelectionBar.tsx:35-37 | "Unselect All" re-selects an ordering question that was selected, so one is still selected afterwards |
| StatsPanel.Categories | src/components/StatsPanel.tsx:17 | the distinct non-empty categories, each once, exactly those some question has |
| StatsPanel.CategoriesSnoc | src/components/StatsPanel.tsx:17 | the categories come in order of first appearance: a question adds its category at the end iff it is non-empty and new |
| StatsPanel.CategoryStats | src/components/StatsPanel.tsx:18-21 | one entry per category, in the categories' order, holding the number of regular questions with that category, which is at least 1 |
| StatsPanel.SumOfCountsSnoc | src/components/StatsPanel.tsx:18-21 | one more question adds one to its own category's count only |
| StatsPanel.NewCategoryCount | src/components/StatsPanel.tsx:20 | a question with a category nobody had before is its only member |
| StatsPanel.SumOfCountsStep | src/components/StatsPanel.tsx:17-21 | one more question adds one to the sum iff its category is non-empty |
| StatsPanel.CategoryCountsSum | src/components/StatsPanel.tsx:17-21 | the counts of the category table sum to the number of questions with a non-empty category |
| StatsPanel.FastestDifficultyPartition | src/components/StatsPanel.tsx:24-27 | the ordering questions with difficulty 1, 2 or 3 are each counted once |
| StatsPanel.RegularDifficultyPartition | src/components/StatsPanel.tsx:42-44 | the regular questions with difficulty 1, 2 or 3 are each counted once |
| StatsPanel.DifficultyCountsPartition | src/components/StatsPanel.tsx:12-27 | easy, medium and hard partition the questions with a declared difficulty, and their sum is at most the total |
| StatsPanel.ImportedDifficultiesUncounted | src/components/StatsPanel.tsx:25-27 | questions as the imports make them, with difficulty 0 or none, are in no count |
| ImportPanel.ValidTypes | src/components/ImportPanel.tsx:30-32 | each mode lists two MIME types |
| ImportPanel.Panel.constructor | src/components/ImportPanel.tsx:20-22 | XML mode, not loading, no file |
| ImportPanel.Panel.HandleFileChange | src/components/ImportPanel.tsx:25-47 | an empty choice clears the file; a wrong type or a too large file keeps the old file and raises that notice; an accepted file is selected |
| ImportPanel.Panel.HandleImport | src/components/ImportPanel.tsx:49-74 | no file: only the notice. A failed import keeps the file and the store. A successful one clears the file and the store takes the result, which in the XML mode is any file that can be read. `loading` ends false either way |
| ImportPanel.Panel.ClearFile | src/components/ImportPanel.tsx:76-81 | the file is cleared |
| ImportPanel.Panel.SetImportType | src/components/ImportPanel.tsx:92 | the mode changes and the chosen file stays |
| ImportPanel.AcceptedIff | src/components/ImportPanel.tsx:30-43 | accepted iff the MIME type is the mode's or the lowered name has its ending, and the size is at most 10 MB |
| ImportPanel.UpperCaseExtension | src/components/ImportPanel.tsx:34 | the name test ignores case: "Quiz.XML" passes in the XML mode |
| ImportPanel.ModeMatters | src/components/ImportPanel.tsx:30-34 | a file taken in the XML mode is refused in the spreadsheet mode |
| ImportPanel.ParserErrorImportsNothing | src/utils/xmlImport.ts:9-42 | the document `DOMParser` returns for a file that is not XML from its first character, such as a spreadsheet, gives no ordering question and no regular question |
| ImportPanel.OutcomeFacts | src/components/ImportPanel.tsx:57-63 | an XML document always imports in the XML mode. A spreadsheet in the XML mode imports nothing, successfully, so the regular list becomes empty. A workbook fails in the spreadsheet mode iff neither sheet is found. An XML document fails in the spreadsheet mode, and so does an unreadable file |
| RegularForm.InitialCorrectAnswer | src/components/RegularQuestionForm.tsx:34-38 | the first correct key of the edited record, or 'a' for a new form or when none is correct |
| RegularForm.Rechecked | src/components/RegularQuestionForm.tsx:62-67 | texts are kept, and exactly the chosen answer is correct |
| RegularForm.Form.constructor | src/components/RegularQuestionForm.tsx:21-38 | the edited record or the empty one, and the initial `correctAnswer` |
| RegularForm.Form.HandleTextChange | src/components/RegularQuestionForm.tsx:40-42 | only the text changes, and one-correct consistency is kept |
| RegularForm.Form.HandleCategoryChange | src/components/RegularQuestionForm.tsx:44-46 | only the category changes, and consistency is kept |
| RegularForm.Form.HandleAnswerTextChange | src/components/RegularQuestionForm.tsx:48-56 | only answer `k`'s text changes, its flag is kept, and consistency is kept |
| RegularForm.Form.HandleCorrectAnswerChange | src/components/RegularQuestionForm.tsx:58-73 | the button shows `v` and exactly answer `v` is correct |
| RegularForm.Form.HandleSubmit | src/components/RegularQuestionForm.tsx:75-185 | with the category, the text or an answer text empty, the browser blocks the submit: the store is unchanged and `onComplete` is not called; otherwise an edit updates by id, a new record is added, and `onComplete` is called when given |
| RegularForm.NewFormNotSubmittable | src/components/RegularQuestionForm.tsx:21-185 | a new form, with its empty fields, cannot be submitted |
| RegularForm.NewFormDisagrees | src/components/RegularQuestionForm.tsx:21-38 | a new form shows 'a' although no answer is correct; it is unselected and has no difficulty |
| RegularForm.RecheckedHasOneCorrect | src/components/RegularQuestionForm.tsx:58-67 | after choosing `v`, exactly one answer is correct, and it is the first |
| RegularForm.ReopenShowsChoice | src/components/RegularQuestionForm.tsx:34-38 | reopening a record on which `v` was chosen shows `v` again |
| RegularForm.TextEditKeepsFlags | src/components/RegularQuestionForm.tsx:48-55 | a text edit keeps every flag and the number of correct answers |
| RegularForm.SubmittedEditStored | src/components/RegularQuestionForm.tsx:78-79 | an edit stores the form's record under its id and leaves the other entries alone |
| FastestForm.ChoiceDifficulty | src/components/FastestFingerForm.tsx:49-55 | `parseInt` of a choice is 1..3 and is shown back as the same text |
| FastestForm.Form.constructor | src/components/FastestFingerForm.tsx:22-29 | the edited record or the default one |
| FastestForm.Form.HandleTextChange | src/components/FastestFingerForm.tsx:31-33 | only the text changes |
| FastestForm.Form.HandleAnswerChange | src/components/FastestFingerForm.tsx:35-40 | only option `k` changes |
| FastestForm.Form.HandleOrderChange | src/components/FastestFingerForm.tsx:42-47 | only slot `p` changes, with nothing keeping the slots distinct |
| FastestForm.Form.HandleDifficultyChange | src/components/FastestFingerForm.tsx:49-55 | only the difficulty changes, to the chosen value |
| FastestForm.Form.HandleSubmit | src/components/FastestFingerForm.tsx:57-136 | with the text or an option empty, the browser blocks the submit: the store is unchanged and no callback is made; otherwise an edit updates by id and a new record is added, then `onComplete` and `onClose` are called, in that order, when given |
| FastestForm.NewFormNotSubmittable | src/components/FastestFingerForm.tsx:22-136 | a new form, with its empty text and options, cannot be submitted |
| FastestForm.NewFormDefaults | src/components/FastestFingerForm.tsx:22-29 | a new record has order a, b, c, d (a permutation), difficulty 1, is unselected and has empty options |
| FastestForm.OrderChangeKeepsWellTyped | src/components/FastestFingerForm.tsx:42-47 | changing a slot through the select keeps the order well typed |
| FastestForm.OrderChangeMayRepeat | src/components/FastestFingerForm.tsx:42-47 | one change from the default already repeats a key |
| FastestForm.DifficultyShownBack | src/components/FastestFingerForm.tsx:221-230 | the difficulty chosen is the one the select then shows |
| FastestForm.SubmittedEditStored | src/components/FastestFingerForm.tsx:60-61 | an edit stores the form's record under its id and leaves the other entries alone |

## Left out

- `DOMParser` is not modelled. The XML import starts from the element tree it would produce, and `ExportTree` is the tree that `generateXML`'s text spells out.
- Namespaces, comments and processing instructions are not modelled. Nor are entity decoding and the merging of adjacent text nodes.
- `XmlExport.XmlTextIsExportTree`: the text is unescaped. So `ExportTree` is what a parser would see only when no field contains `<` or `&`, or the sequence `]]>`. The attributes hold only yes/no and decimals. The round trip is therefore stated over the tree, not over the text.
- `XmlTree.GetAttribute`: with duplicate attribute names, the model takes the first match, as parsers that accept such input do.
- The `xlsx` library's `read`, `sheet_to_json`, `json_to_sheet` and `write` are not modelled.
  - The import starts from sheet names and rows of cell texts.
  - The export stops at the row objects and the workbook.
  - `XlsxExport.RowCells` is an assumed reading of a row object as cells, in key order.
  - No end-to-end spreadsheet round trip is stated: the number of rows `json_to_sheet` writes before the data is library behaviour. The import skips three rows while the export writes one header object. The row-level read-back lemmas cover the rest.
- `XlsxExport.Book.AppendSheet` requires a name not yet in use, where the library throws. `downloadXLSX` only ever appends two distinct names.
- `XlsxExport.Put`: key order follows insertion order. JavaScript orders integer-like keys first, and no header name is one.
- `cell.toString()` is not modelled: a cell is given by its text. A numeric DIFFICULTY cell is not read by the import.
- File reading (`file.text()`, `arrayBuffer()`), Blob and object-URL downloads, `document` manipulation and `console.error` are not modelled. `ImportPanel.HandleImport` is handed what reading and parsing produced, as a `Content` value.
- Toasts are `ImportPanel.Notice` values. Their texts and the upper-cased mode name are not modelled.
- `uuidv4` is an `IdSource` parameter, where the k-th call of one import gets `uuid(k)`. The stores and forms take the new id as a `freshId` or `formId` parameter.
- `ImportPanel.OutcomeFacts`: the spreadsheet mode is modelled as failing on an XML file, either because `XLSX.read` throws or because the workbook it makes has neither sheet name. Which of the two happens is library behaviour.
- `ImportPanel.ParserErrorDocument` stands for the error document the browser builds for a file that is not XML from its first character, such as a spreadsheet. Its exact shape varies by browser and is not modelled; it holds no `fastest` and no `question` element. For a file that goes wrong further on, a browser may keep what was parsed before the error; that partly parsed document depends on the browser and is covered only in general, by `XmlDocument(root)`.
- Case mapping (`toUpperCase`, `toLowerCase`) covers ASCII letters only. Other letters are kept as they are.
- `Number()` is modelled for decimal integers, with an optional sign and surrounding white space, and `""` gives 0. Fractions, exponents, hexadecimal, `Infinity` and floating point are not modelled: any other text is `NaN`, which the import turns into 0.
- The browser's constraint validation appears only as the `required` check that holds back a submit (`RegularForm.RequiredFilled`, `FastestForm.RequiredFilled`). The message the browser shows for an empty field is not modelled.
- `FastestForm.Form.HandleDifficultyChange` takes only "1", "2" or "3", the values the select offers. `parseInt` of other text is not modelled.
- React is not modelled:
  - the batching of `setState` calls;
  - functional updates against stale closures, beyond `selectAll` and `unselectAll` working on the snapshot of the lists they start from;
  - re-rendering.
- The `async` wrapper and the `try`/`catch` returning `false` in the store are not modelled, because nothing in those bodies throws. Every store operation returns `true`.
- Rendering, charts, the colours and the display of file sizes are not modelled.
- `SelectionBar.SelectAll` and `SelectionBar.UnselectAll` are proved against their specification functions. Their regular-list outcome is stated for unique ids only: duplicate ids make toggles cancel, as `SelectionBar.DuplicateIdsDefeatSelectAll` shows.
