/**
 * `downloadXLSX`: the row objects of the two sheets, and the workbook the
 * sheets are appended to. Turning row objects into cells (`json_to_sheet`),
 * writing the file and the download are the `xlsx` library and the browser,
 * and are not modelled; `RowCells` states the one thing about the cells the
 * row rules below rely on.
 */
module XlsxExport {
  import opened Wrappers
  import opened JsString
  import opened Question
  import opened OrderCode
  import opened XlsxImport

  /** A value of a row object: a string, a number, or `undefined`. */
  datatype Cell = Str(s: string) | Num(n: int) | Blank

  datatype Entry = Entry(key: string, value: Cell)

  /** A plain object: its properties in insertion order. */
  type JsonObject = seq<Entry>

  const NormalSheet := "NORMAL"
  const FastestSheet := "FASTEST FINGER FIRST"
  const FastestCategory := "Fastest Finger"

  const RegularHeader: seq<string> := ["Category", "Question", "A", "B", "C", "D", "ANSWER", "DIFFICULTY"]
  const FastestHeader: seq<string> := ["Category", "Question", "A", "B", "C", "D", "CORRECT ORDER", "DIFFICULTY"]

  function Keys(obj: JsonObject): (r: seq<string>)
    ensures |r| == |obj| && forall i :: 0 <= i < |obj| ==> r[i] == obj[i].key
  {
    seq(|obj|, i requires 0 <= i < |obj| => obj[i].key)
  }

  predicate HasKey(obj: JsonObject, key: string) {
    exists i :: 0 <= i < |obj| && obj[i].key == key
  }

  /**
   * `{ ...obj, [key]: v }` on an object (whose keys are distinct): a new key
   * goes last; an existing one keeps its place and takes the new value.
   */
  function Put(obj: JsonObject, key: string, v: Cell): (r: JsonObject)
    ensures !HasKey(obj, key) ==> r == obj + [Entry(key, v)]
    ensures HasKey(obj, key) ==> |r| == |obj|
    ensures forall i :: 0 <= i < |obj| ==> r[i].key == obj[i].key
    ensures forall i :: 0 <= i < |r| && r[i].key == key ==> r[i].value == v
    ensures forall i :: 0 <= i < |obj| && obj[i].key != key ==> r[i] == obj[i]
  {
    if HasKey(obj, key) then seq(|obj|, i requires 0 <= i < |obj| => if obj[i].key == key then Entry(key, v) else obj[i])
    else obj + [Entry(key, v)]
  }

  /** `keys.reduce((obj, key) => ({ ...obj, [key]: key }), obj)` */
  function EchoKeys(obj: JsonObject, keys: seq<string>): JsonObject
    decreases |keys|
  {
    if keys == [] then obj else EchoKeys(Put(obj, keys[0], Str(keys[0])), keys[1..])
  }

  /** The header row object: every column name mapped to itself. */
  function HeaderObject(header: seq<string>): JsonObject {
    EchoKeys([], header)
  }

  /** `q.answers.a.correct ? 'A' : q.answers.b.correct ? 'B' : ... : ''` */
  function AnswerLabel(ans: Answers): (r: string)
    ensures r == "" <==> CorrectCount(ans) == 0
    ensures r == "A" <==> ans.a.correct
    ensures r == "B" <==> !ans.a.correct && ans.b.correct
    ensures r == "C" <==> !ans.a.correct && !ans.b.correct && ans.c.correct
    ensures r == "D" <==> !ans.a.correct && !ans.b.correct && !ans.c.correct && ans.d.correct
  {
    if ans.a.correct then "A" else if ans.b.correct then "B" else if ans.c.correct then "C" else if ans.d.correct then "D" else ""
  }

  /** `DIFFICULTY: q.difficulty`, with a missing difficulty left `undefined`. */
  function DifficultyCell(d: Option<int>): (c: Cell)
    ensures c.Num? <==> d.Some?
    ensures d.Some? ==> c.n == d.value
  {
    match d
    case Some(v) => Num(v)
    case None => Blank
  }

  /** `xs.map(letter => letter.toUpperCase())` */
  function UpperEach(xs: seq<string>): (r: seq<string>)
    ensures |r| == |xs| && forall i :: 0 <= i < |xs| ==> r[i] == Upper(xs[i])
  {
    seq(|xs|, i requires 0 <= i < |xs| => Upper(xs[i]))
  }

  /** `xs.join('')` */
  function Join(xs: seq<string>): string {
    if xs == [] then "" else xs[0] + Join(xs[1..])
  }

  /** `correctOrderString`: the upper-cased slots one to four, joined. */
  function OrderColumn(o: Order): string {
    Join(UpperEach([o.one, o.two, o.three, o.four]))
  }

  /** One object of `regularQuestionsData`. */
  function RegularRow(q: Regular): JsonObject {
    [Entry("Category", Str(q.category)), Entry("Question", Str(q.text)),
     Entry("A", Str(q.answers.a.text)), Entry("B", Str(q.answers.b.text)),
     Entry("C", Str(q.answers.c.text)), Entry("D", Str(q.answers.d.text)),
     Entry("ANSWER", Str(AnswerLabel(q.answers))), Entry("DIFFICULTY", DifficultyCell(q.difficulty))]
  }

  /** The one object of `fastestData`. */
  function FastestRow(q: FastestFinger): JsonObject {
    [Entry("Category", Str(FastestCategory)), Entry("Question", Str(q.text)),
     Entry("A", Str(q.answers.a)), Entry("B", Str(q.answers.b)),
     Entry("C", Str(q.answers.c)), Entry("D", Str(q.answers.d)),
     Entry("CORRECT ORDER", Str(OrderColumn(q.correctOrder))), Entry("DIFFICULTY", Num(q.difficulty))]
  }

  /**
   * What goes to `json_to_sheet` for the NORMAL sheet: the header object,
   * which is `HeaderObject(RegularHeader)` (see `HeaderObjects`), then one
   * object per question.
   */
  function NormalData(qs: seq<Regular>): seq<JsonObject> {
    [Echoes(RegularHeader)] + RegularRows(qs)
  }

  /** `regularQuestionsData`: one row object per question, in order. */
  function RegularRows(qs: seq<Regular>): (r: seq<JsonObject>)
    ensures |r| == |qs| && forall k :: 0 <= k < |qs| ==> r[k] == RegularRow(qs[k])
  {
    seq(|qs|, k requires 0 <= k < |qs| => RegularRow(qs[k]))
  }

  /** What goes to `json_to_sheet` for the FASTEST FINGER FIRST sheet; the header object is `HeaderObject(FastestHeader)`. */
  function FastestData(q: FastestFinger): seq<JsonObject> {
    [Echoes(FastestHeader), FastestRow(q)]
  }

  /** The workbook `utils.book_new()` makes and `utils.book_append_sheet` grows. */
  class Book {
    var sheetNames: seq<string>
    var sheets: map<string, seq<JsonObject>>

    constructor ()
      ensures sheetNames == [] && sheets == map[]
    {
      sheetNames := [];
      sheets := map[];
    }

    /** `book_append_sheet(workbook, sheet, name)`; the library refuses a name already in use. */
    method AppendSheet(data: seq<JsonObject>, name: string)
      requires name !in sheets
      modifies this
      ensures sheetNames == old(sheetNames) + [name]
      ensures sheets == old(sheets)[name := data]
    {
      sheetNames := sheetNames + [name];
      sheets := sheets[name := data];
    }
  }

  /** `downloadXLSX` up to the point where the workbook is written out. */
  method DownloadXlsx(fastestFingerQuestion: Option<FastestFinger>, regularQuestions: seq<Regular>) returns (workbook: Book)
    ensures fresh(workbook)
    ensures workbook.sheetNames == if fastestFingerQuestion.Some? then [NormalSheet, FastestSheet] else [NormalSheet]
    ensures NormalSheet in workbook.sheets && workbook.sheets[NormalSheet] == NormalData(regularQuestions)
    ensures FastestSheet in workbook.sheets <==> fastestFingerQuestion.Some?
    ensures fastestFingerQuestion.Some? ==> workbook.sheets[FastestSheet] == FastestData(fastestFingerQuestion.value)
  {
    assert NormalSheet != FastestSheet;
    workbook := new Book();
    workbook.AppendSheet(NormalData(regularQuestions), NormalSheet);
    if fastestFingerQuestion.Some? {
      workbook.AppendSheet(FastestData(fastestFingerQuestion.value), FastestSheet);
    }
  }

  // ----- lemmas --------------------------------------------------------------------

  predicate Distinct(keys: seq<string>) {
    forall i, j :: 0 <= i < j < |keys| ==> keys[i] != keys[j]
  }

  /** Each key mapped to itself, in order. */
  function Echoes(keys: seq<string>): (r: JsonObject)
    ensures |r| == |keys| && forall i :: 0 <= i < |keys| ==> r[i] == Entry(keys[i], Str(keys[i]))
  {
    seq(|keys|, i requires 0 <= i < |keys| => Entry(keys[i], Str(keys[i])))
  }

  lemma {:induction false} EchoKeysAppends(obj: JsonObject, keys: seq<string>)
    requires Distinct(keys)
    requires forall i :: 0 <= i < |keys| ==> !HasKey(obj, keys[i])
    ensures EchoKeys(obj, keys) == obj + Echoes(keys)
    decreases |keys|
  {
    if keys != [] {
      var next := Put(obj, keys[0], Str(keys[0]));
      var rest := keys[1..];
      FreshAfterPut(obj, keys);
      DistinctTail(keys);
      EchoKeysAppends(next, rest);
      EchoesCons(keys);
      EntriesRegroup(obj, [Entry(keys[0], Str(keys[0]))], Echoes(rest));
    }
  }

  /** Putting the first of distinct fresh keys appends it, and leaves the other keys fresh. */
  lemma FreshAfterPut(obj: JsonObject, keys: seq<string>)
    requires keys != [] && Distinct(keys)
    requires forall i :: 0 <= i < |keys| ==> !HasKey(obj, keys[i])
    ensures Put(obj, keys[0], Str(keys[0])) == obj + [Entry(keys[0], Str(keys[0]))]
    ensures forall i :: 0 <= i < |keys| - 1 ==> !HasKey(Put(obj, keys[0], Str(keys[0])), keys[1..][i])
  {
    var next := Put(obj, keys[0], Str(keys[0]));
    assert next == obj + [Entry(keys[0], Str(keys[0]))];
    var rest := keys[1..];
    forall i | 0 <= i < |rest|
      ensures !HasKey(next, rest[i])
    {
      var key := rest[i];
      assert key == keys[i + 1] && key != keys[0];
      assert !HasKey(obj, key);
      forall j | 0 <= j < |next|
        ensures next[j].key != key
      {
        if j < |obj| {
          assert next[j] == obj[j];
        }
      }
    }
  }

  lemma EchoesCons(keys: seq<string>)
    requires keys != []
    ensures Echoes(keys) == [Entry(keys[0], Str(keys[0]))] + Echoes(keys[1..])
  {
  }

  lemma DistinctTail(keys: seq<string>)
    requires keys != [] && Distinct(keys)
    ensures Distinct(keys[1..])
  {
    var rest := keys[1..];
    forall i, j | 0 <= i < j < |rest|
      ensures rest[i] != rest[j]
    {
      assert rest[i] == keys[i + 1] && rest[j] == keys[j + 1];
    }
  }

  lemma EntriesRegroup(a: JsonObject, b: JsonObject, c: JsonObject)
    ensures a + b + c == a + (b + c)
  {
  }

  /** The header object of distinct column names maps each name to itself, in column order. */
  lemma HeaderObjectOfDistinct(header: seq<string>)
    requires Distinct(header)
    ensures HeaderObject(header) == Echoes(header)
  {
    EchoKeysAppends([], header);
  }

  lemma HeadersDistinct()
    ensures Distinct(RegularHeader) && Distinct(FastestHeader)
  {
  }

  /** The header row of both sheets maps every column name to itself, in column order. */
  lemma HeaderObjects()
    ensures HeaderObject(RegularHeader) == Echoes(RegularHeader)
    ensures HeaderObject(FastestHeader) == Echoes(FastestHeader)
  {
    HeadersDistinct();
    HeaderObjectOfDistinct(RegularHeader);
    HeaderObjectOfDistinct(FastestHeader);
  }

  /** A data row has exactly the header's keys, in the same order, so every value lands under its own column. */
  lemma RowsLineUp(q: Regular, f: FastestFinger)
    ensures Keys(RegularRow(q)) == RegularHeader
    ensures Keys(FastestRow(f)) == FastestHeader
  {
  }

  /** The NORMAL data: the header object, then one row per regular question, in order, even when there are none. */
  lemma NormalDataShape(qs: seq<Regular>)
    ensures |NormalData(qs)| == |qs| + 1 && NormalData(qs)[0] == Echoes(RegularHeader)
    ensures forall k :: 0 <= k < |qs| ==> NormalData(qs)[k + 1] == RegularRow(qs[k])
  {
    var rows := RegularRows(qs);
    forall k | 0 <= k < |qs|
      ensures NormalData(qs)[k + 1] == RegularRow(qs[k])
    {
      assert NormalData(qs)[k + 1] == rows[k];
    }
  }

  lemma JoinFour(a: string, b: string, c: string, d: string)
    ensures Join([a, b, c, d]) == a + b + c + d
  {
    assert [a, b, c, d][1..] == [b, c, d];
    assert [b, c, d][1..] == [c, d];
    assert [c, d][1..] == [d];
    assert [d][1..] == [];
    assert Join([d]) == d;
    assert Join([c, d]) == c + d;
    assert Join([b, c, d]) == b + (c + d);
  }

  /**
   * `CORRECT ORDER` is the four slots joined and upper-cased; for a
   * well-typed order that is four letters, which the spreadsheet import
   * reads back as the same order.
   */
  lemma OrderColumnFacts(o: Order)
    ensures OrderColumn(o) == Upper(LetterCode(o))
    ensures |OrderColumn(o)| == |o.one| + |o.two| + |o.three| + |o.four|
    ensures WellTypedOrder(o) ==> |OrderColumn(o)| == 4 && ParseCorrectOrder(OrderColumn(o)) == Some(o)
  {
    var u := UpperEach([o.one, o.two, o.three, o.four]);
    assert u == [Upper(o.one), Upper(o.two), Upper(o.three), Upper(o.four)];
    JoinFour(Upper(o.one), Upper(o.two), Upper(o.three), Upper(o.four));
    UpperAppend(o.one, o.two);
    UpperAppend(o.one + o.two, o.three);
    UpperAppend(o.one + o.two + o.three, o.four);
    if WellTypedOrder(o) {
      ParseOfUpperLetterCode(o);
    }
  }

  /** `AnswerLabel` names the first correct answer, in the order A, B, C, D. */
  lemma AnswerLabelIsFirstCorrect(ans: Answers, k: Letter)
    ensures AnswerLabel(ans) == k.UpperName() <==> FirstCorrectIs(ans, k)
  {
    assert A.Index() == 0 && B.Index() == 1 && C.Index() == 2 && D.Index() == 3;
    if FirstCorrectIs(ans, k) {
      assert k != B ==> !ans.b.correct || B.Index() >= k.Index();
    }
    if k != A {
      assert A.Index() < k.Index() ==> (FirstCorrectIs(ans, k) ==> !ans.Get(A).correct);
    }
    if k == C || k == D {
      assert FirstCorrectIs(ans, k) ==> !ans.Get(B).correct;
    }
    if k == D {
      assert FirstCorrectIs(ans, k) ==> !ans.Get(C).correct;
    }
  }

  // ----- rows read back by the spreadsheet import ------------------------------------

  /**
   * The text a cell holds once `json_to_sheet` wrote the value and
   * `sheet_to_json` read it back: a string as it is, a number in decimal,
   * `undefined` as an empty cell.
   */
  function CellString(c: Cell): string {
    match c
    case Str(s) => s
    case Num(n) => IntToDecimal(n)
    case Blank => ""
  }

  /** A row object as a sheet row: its values, in key order, as text. */
  function RowCells(obj: JsonObject): (r: Row)
    ensures |r| == |obj| && forall i :: 0 <= i < |obj| ==> r[i] == CellString(obj[i].value)
  {
    seq(|obj|, i requires 0 <= i < |obj| => CellString(obj[i].value))
  }

  lemma AnswerLabelTrimmed(ans: Answers)
    ensures IsTrimmed(AnswerLabel(ans)) && Upper(AnswerLabel(ans)) == AnswerLabel(ans)
  {
  }

  /** The cells of a NORMAL row as the import's row rule reads them. */
  lemma RegularRowCells(q: Regular, row: Row)
    requires row == RowCells(RegularRow(q))
    ensures && |row| == 8
      && CellText(row, 1) == Trim(q.text)
      && CellText(row, 2) == Trim(q.answers.a.text) && CellText(row, 3) == Trim(q.answers.b.text)
      && CellText(row, 4) == Trim(q.answers.c.text) && CellText(row, 5) == Trim(q.answers.d.text)
      && Upper(CellText(row, 6)) == AnswerLabel(q.answers)
  {
    RegularRowTexts(q, row);
    assert CellText(row, 1) == Trim(q.text);
    assert CellText(row, 2) == Trim(q.answers.a.text);
    assert CellText(row, 3) == Trim(q.answers.b.text);
    assert CellText(row, 4) == Trim(q.answers.c.text);
    assert CellText(row, 5) == Trim(q.answers.d.text);
    AnswerLabelTrimmed(q.answers);
    LabelCell(row, 6, AnswerLabel(q.answers));
  }

  /** A trimmed upper-case cell reads back as itself. */
  lemma LabelCell(row: Row, i: nat, lab: string)
    requires i < |row| && row[i] == lab && IsTrimmed(lab) && Upper(lab) == lab
    ensures Upper(CellText(row, i)) == lab
  {
    TrimOfTrimmed(lab);
  }

  /** The raw texts of a NORMAL row, before trimming. */
  lemma RegularRowTexts(q: Regular, row: Row)
    requires row == RowCells(RegularRow(q))
    ensures && |row| == 8
      && row[1] == q.text && row[2] == q.answers.a.text && row[3] == q.answers.b.text
      && row[4] == q.answers.c.text && row[5] == q.answers.d.text
      && row[6] == AnswerLabel(q.answers)
  {
    var obj := RegularRow(q);
    assert |obj| == 8;
    assert obj[1].value == Str(q.text) && obj[2].value == Str(q.answers.a.text);
    assert obj[3].value == Str(q.answers.b.text) && obj[4].value == Str(q.answers.c.text);
    assert obj[5].value == Str(q.answers.d.text) && obj[6].value == Str(AnswerLabel(q.answers));
  }

  /** A NORMAL row is kept by the spreadsheet import exactly when the trimmed question and some trimmed answer are non-empty. */
  lemma RegularRowKeptIff(q: Regular, row: Row)
    requires row == RowCells(RegularRow(q))
    ensures RegularRowKept(row) <==>
      Trim(q.text) != "" &&
      (Trim(q.answers.a.text) != "" || Trim(q.answers.b.text) != "" || Trim(q.answers.c.text) != "" || Trim(q.answers.d.text) != "")
  {
    RegularRowCells(q, row);
    KeptOfCells(row, q);
  }

  lemma KeptOfCells(row: Row, q: Regular)
    requires |row| == 8
    requires CellText(row, 1) == Trim(q.text)
    requires CellText(row, 2) == Trim(q.answers.a.text) && CellText(row, 3) == Trim(q.answers.b.text)
    requires CellText(row, 4) == Trim(q.answers.c.text) && CellText(row, 5) == Trim(q.answers.d.text)
    ensures RegularRowKept(row) <==>
      Trim(q.text) != "" &&
      (Trim(q.answers.a.text) != "" || Trim(q.answers.b.text) != "" || Trim(q.answers.c.text) != "" || Trim(q.answers.d.text) != "")
  {
  }

  /**
   * A NORMAL row read back by the spreadsheet import's row rule: the texts
   * come back trimmed, the category becomes "Imported", the difficulty is
   * lost, and only the first correct answer stays correct.
   */
  lemma RegularRowReadBack(q: Regular, row: Row, id: Id, k: Letter)
    requires row == RowCells(RegularRow(q))
    ensures var r := RegularFromRow(row, id);
      && r.id == id && r.category == "Imported" && r.text == Trim(q.text) && !r.selected && r.difficulty.None?
      && r.answers.Get(k).text == Trim(q.answers.Get(k).text)
      && (r.answers.Get(k).correct <==> FirstCorrectIs(q.answers, k))
  {
    RegularRowCells(q, row);
    var r := RegularFromRow(row, id);
    assert r.answers.Get(k).correct <==> FirstCorrectIs(q.answers, k) by {
      assert r.answers.Get(k).correct <==> AnswerLabel(q.answers) == k.UpperName();
      AnswerLabelIsFirstCorrect(q.answers, k);
    }
  }

  lemma OrderColumnTrimmed(o: Order)
    requires WellTypedOrder(o)
    ensures IsTrimmed(OrderColumn(o))
  {
    OrderColumnFacts(o);
    LetterCodeIsLower(o);
    UpperCodeTrimmed(LetterCode(o));
  }

  lemma UpperCodeTrimmed(code: string)
    requires |code| == 4 && forall i :: 0 <= i < 4 ==> 'a' <= code[i] <= 'd'
    ensures IsTrimmed(Upper(code))
  {
    var u := Upper(code);
    assert u[0] == UpperChar(code[0]);
    assert u[3] == UpperChar(code[3]);
  }

  /** A cell holding text that is already trimmed reads as that text. */
  lemma TrimmedCell(row: Row, i: nat, s: string)
    requires i < |row| && row[i] == s && IsTrimmed(s)
    ensures CellText(row, i) == s
  {
    TrimOfTrimmed(s);
  }

  /** The text cells of a FASTEST FINGER FIRST row as the import's row rule reads them. */
  lemma FastestRowCells(q: FastestFinger, row: Row)
    requires row == RowCells(FastestRow(q))
    ensures && |row| == 8
      && CellText(row, 1) == Trim(q.text)
      && CellText(row, 2) == Trim(q.answers.a) && CellText(row, 3) == Trim(q.answers.b)
      && CellText(row, 4) == Trim(q.answers.c) && CellText(row, 5) == Trim(q.answers.d)
  {
    var obj := FastestRow(q);
    assert |obj| == 8;
    assert obj[1].value == Str(q.text) && obj[2].value == Str(q.answers.a) && obj[3].value == Str(q.answers.b);
    assert obj[4].value == Str(q.answers.c) && obj[5].value == Str(q.answers.d);
    assert row[1] == q.text && row[2] == q.answers.a && row[3] == q.answers.b;
    assert row[4] == q.answers.c && row[5] == q.answers.d;
  }

  /** The order cell of a FASTEST FINGER FIRST row, for a well-typed order, reads as the order column itself. */
  lemma FastestOrderCell(q: FastestFinger, row: Row)
    requires WellTypedOrder(q.correctOrder) && row == RowCells(FastestRow(q))
    ensures CellText(row, 6) == OrderColumn(q.correctOrder)
  {
    var obj := FastestRow(q);
    assert |obj| == 8 && obj[6].value == Str(OrderColumn(q.correctOrder));
    assert row[6] == OrderColumn(q.correctOrder);
    OrderColumnTrimmed(q.correctOrder);
    TrimmedCell(row, 6, OrderColumn(q.correctOrder));
  }

  /**
   * The FASTEST FINGER FIRST row read back by the spreadsheet import's row
   * rule, for a well-typed order: taken exactly when the trimmed question
   * and the four trimmed options are non-empty; then the texts come back
   * trimmed, the order is the same, the record is selected and the
   * difficulty becomes 0.
   */
  lemma FastestRowReadBack(q: FastestFinger, row: Row, id: Id)
    requires WellTypedOrder(q.correctOrder) && row == RowCells(FastestRow(q))
    ensures FastestRowValid(row) <==>
      Trim(q.text) != "" && Trim(q.answers.a) != "" && Trim(q.answers.b) != "" && Trim(q.answers.c) != "" && Trim(q.answers.d) != ""
    ensures FastestRowValid(row) ==>
      FastestFromRow(row, id) ==
        FastestFinger(id, Trim(q.text), Options(Trim(q.answers.a), Trim(q.answers.b), Trim(q.answers.c), Trim(q.answers.d)),
          q.correctOrder, true, 0)
  {
    FastestRowCells(q, row);
    FastestOrderCell(q, row);
    OrderColumnFacts(q.correctOrder);
    FastestCellsFilledIff(row);
  }
}
