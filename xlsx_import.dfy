/**
 * `importXLSX`: finds the regular-question sheet and the ordering-question
 * sheet by name, walks their rows from index 3 by fixed column positions
 * and hands the records to the store.
 */
module XlsxImport {
  import opened Wrappers
  import opened JsString
  import opened Question
  import opened Seqs
  import opened OrderCode
  import opened QuestionsContext

  /**
   * One row of `sheet_to_json(sheet, { header: 1 })`: the text of each cell
   * (`toString()` of its value), with an empty cell as "".
   */
  type Row = seq<string>

  type Sheet = seq<Row>

  /** What `read` gives: `SheetNames` and the `Sheets` object. */
  datatype Workbook = Workbook(sheetNames: seq<string>, sheets: map<string, Sheet>)

  /** Every listed sheet has its contents, as `read` guarantees. */
  predicate WellFormed(wb: Workbook) {
    forall i :: 0 <= i < |wb.sheetNames| ==> wb.sheetNames[i] in wb.sheets
  }

  const MissingSheetsMessage := "Could not find sheets with Normal Questions or Fastest Finger First questions"

  /** The rows before index 3 are header rows. */
  const HeaderRows := 3

  /** The test that picks the regular-question sheet; only "NORMAL" ignores letter case. */
  predicate IsNormalSheetName(name: string) {
    Contains(Upper(name), "NORMAL") || Contains(name, "REGULAR") || Contains(name, "Question")
  }

  /** The test that picks the ordering-question sheet. */
  predicate IsFastestSheetName(name: string) {
    Contains(Upper(name), "FASTEST") || Contains(name, "FINGER")
  }

  /** `row[i]?.toString().trim() || ''`: a cell beyond the row's end reads as "". */
  function CellText(row: Row, i: nat): (t: string)
    ensures IsTrimmed(t)
  {
    if i < |row| then Trim(row[i]) else ""
  }

  /** The rows the loops look at. */
  function DataRows(sheet: Sheet): Sheet {
    if |sheet| <= HeaderRows then [] else sheet[HeaderRows..]
  }

  // ----- regular questions ------------------------------------------------------

  /** A regular row is kept: at least six cells, question text, and some option text. */
  predicate RegularRowKept(row: Row) {
    && |row| >= 6
    && CellText(row, 1) != ""
    && (CellText(row, 2) != "" || CellText(row, 3) != "" || CellText(row, 4) != "" || CellText(row, 5) != "")
  }

  /** The record built from a kept row. */
  function RegularFromRow(row: Row, id: Id): Regular {
    var correctAnswer := Upper(CellText(row, 6));
    Regular(id, "Imported", CellText(row, 1),
      Answers(
        Answer(CellText(row, 2), correctAnswer == "A"),
        Answer(CellText(row, 3), correctAnswer == "B"),
        Answer(CellText(row, 4), correctAnswer == "C"),
        Answer(CellText(row, 5), correctAnswer == "D")),
      false, None)
  }

  /** `regularQuestions` after the loop has seen `rows`; the k-th pushed record takes the k-th id. */
  function RegularsFrom(rows: seq<Row>, uuid: IdSource): (r: seq<Regular>)
    ensures |r| <= |rows|
  {
    KeepAndBuild(rows, RegularRowKept, (row: Row, k: nat) => RegularFromRow(row, uuid(k)))
  }

  /** One more row: the loop pushes its record when it is kept, with the next id. */
  lemma RegularsFromSnoc(rows: seq<Row>, row: Row, uuid: IdSource)
    ensures RegularsFrom(rows + [row], uuid) ==
              RegularsFrom(rows, uuid) + (if RegularRowKept(row) then [RegularFromRow(row, uuid(|RegularsFrom(rows, uuid)|))] else [])
  {
    assert (rows + [row])[..|rows|] == rows;
  }

  // ----- the ordering question --------------------------------------------------

  /** Every cell from column `from` up to, not including, column `to` holds text once trimmed. */
  predicate CellsFilled(row: Row, from: nat, to: nat)
    decreases to - from
  {
    from >= to || (CellText(row, from) != "" && CellsFilled(row, from + 1, to))
  }

  /** The question and the four options, cell by cell. */
  lemma FastestCellsFilledIff(row: Row)
    ensures CellsFilled(row, 1, 6) <==>
      CellText(row, 1) != "" && CellText(row, 2) != "" && CellText(row, 3) != "" && CellText(row, 4) != "" && CellText(row, 5) != ""
  {
    assert CellsFilled(row, 4, 6) <==> CellText(row, 4) != "" && CellText(row, 5) != "";
    assert CellsFilled(row, 2, 6) <==> CellText(row, 2) != "" && CellText(row, 3) != "" && CellsFilled(row, 4, 6);
  }

  /** An ordering row is taken: six cells, question text, all four options, and a readable order. */
  predicate FastestRowValid(row: Row) {
    && |row| >= 6
    && CellsFilled(row, 1, 6)
    && ParseCorrectOrder(CellText(row, 6)).Some?
  }

  function FastestFromRow(row: Row, id: Id): FastestFinger
    requires FastestRowValid(row)
  {
    FastestFinger(id, CellText(row, 1),
      Options(CellText(row, 2), CellText(row, 3), CellText(row, 4), CellText(row, 5)),
      ParseCorrectOrder(CellText(row, 6)).value, true, 0)
  }

  /** The question built from the first valid row after the header rows, if any. */
  function FirstFastest(sheet: Sheet, id: Id): (r: Option<FastestFinger>)
    ensures r.Some? ==> r.value.id == id && r.value.selected
  {
    var k := FirstFrom(sheet, FastestRowValid, HeaderRows);
    if k.Some? then Some(FastestFromRow(sheet[k.value], id)) else None
  }

  // ----- the whole import -------------------------------------------------------

  /** What `importXLSX` hands to `setQuestions`, or the error it throws. */
  function ImportResult(wb: Workbook, uuid: IdSource): Result<Imported, string>
    requires WellFormed(wb)
  {
    var normal := FirstWhere(wb.sheetNames, IsNormalSheetName);
    var fastest := FirstWhere(wb.sheetNames, IsFastestSheetName);
    if normal.None? && fastest.None? then Err(MissingSheetsMessage)
    else
      var regular := if normal.Some? then RegularsFrom(DataRows(wb.sheets[wb.sheetNames[normal.value]]), uuid) else [];
      var ff := if fastest.Some? then FirstFastest(wb.sheets[wb.sheetNames[fastest.value]], uuid(|regular|)) else None;
      Ok(Imported(ff, regular))
  }

  /**
   * The body of the regular-question loop for one row: `None` where the
   * source continues to the next row, the record it pushes otherwise.
   */
  method ReadRegularRow(row: Row, id: Id) returns (q: Option<Regular>)
    ensures q == if RegularRowKept(row) then Some(RegularFromRow(row, id)) else None
  {
    if |row| < 6 {
      return None;
    }
    var questionText := CellText(row, 1);
    if questionText == "" {
      return None;
    }
    var optionA := CellText(row, 2);
    var optionB := CellText(row, 3);
    var optionC := CellText(row, 4);
    var optionD := CellText(row, 5);
    var correctAnswer := Upper(CellText(row, 6));
    if questionText != "" && (optionA != "" || optionB != "" || optionC != "" || optionD != "") {
      return Some(Regular(id, "Imported", questionText,
        Answers(
          Answer(optionA, correctAnswer == "A"),
          Answer(optionB, correctAnswer == "B"),
          Answer(optionC, correctAnswer == "C"),
          Answer(optionD, correctAnswer == "D")),
        false, None));
    }
    return None;
  }

  /** The regular-question loop over one sheet. */
  method ReadRegularSheet(sheet: Sheet, uuid: IdSource) returns (regularQuestions: seq<Regular>)
    ensures regularQuestions == RegularsFrom(DataRows(sheet), uuid)
  {
    regularQuestions := [];
    var i := HeaderRows;
    while i < |sheet|
      invariant HeaderRows <= i
      invariant |sheet| <= HeaderRows ==> regularQuestions == []
      invariant |sheet| > HeaderRows ==> i <= |sheet| && regularQuestions == RegularsFrom(sheet[HeaderRows..i], uuid)
    {
      RegularsStep(sheet, i, uuid);
      var q := ReadRegularRow(sheet[i], uuid(|regularQuestions|));
      if q.Some? {
        regularQuestions := regularQuestions + [q.value];
      }
      i := i + 1;
    }
    if |sheet| > HeaderRows {
      assert sheet[HeaderRows..i] == DataRows(sheet);
    }
  }

  /** One more turn of the regular-question loop reads one more row. */
  lemma RegularsStep(sheet: Sheet, i: nat, uuid: IdSource)
    requires HeaderRows <= i < |sheet|
    ensures var prev := RegularsFrom(sheet[HeaderRows..i], uuid);
      RegularsFrom(sheet[HeaderRows..i + 1], uuid) ==
        prev + (if RegularRowKept(sheet[i]) then [RegularFromRow(sheet[i], uuid(|prev|))] else [])
  {
    assert sheet[HeaderRows..i + 1] == sheet[HeaderRows..i] + [sheet[i]];
    RegularsFromSnoc(sheet[HeaderRows..i], sheet[i], uuid);
  }

  /**
   * The body of the ordering-question loop for one row: `None` where the
   * source continues to the next row, the question where it breaks.
   */
  method ReadFastestRow(row: Row, id: Id) returns (q: Option<FastestFinger>)
    ensures q == if FastestRowValid(row) then Some(FastestFromRow(row, id)) else None
  {
    FastestCellsFilledIff(row);
    if |row| < 6 {
      return None;
    }
    var questionText := CellText(row, 1);
    if questionText == "" {
      return None;
    }
    var optionA := CellText(row, 2);
    var optionB := CellText(row, 3);
    var optionC := CellText(row, 4);
    var optionD := CellText(row, 5);
    var correctOrderString := CellText(row, 6);
    var correctOrder := ParseCorrectOrder(correctOrderString);
    if questionText != "" && optionA != "" && optionB != "" && optionC != "" && optionD != "" && correctOrder.Some? {
      return Some(FastestFinger(id, questionText, Options(optionA, optionB, optionC, optionD), correctOrder.value, true, 0));
    }
    return None;
  }

  /** The ordering-question loop over one sheet: the first valid row after the header rows wins. */
  method ReadFastestSheet(sheet: Sheet, id: Id) returns (fastestFingerQuestion: Option<FastestFinger>)
    ensures fastestFingerQuestion == FirstFastest(sheet, id)
  {
    fastestFingerQuestion := None;
    var i := HeaderRows;
    while i < |sheet|
      invariant HeaderRows <= i
      invariant FirstFrom(sheet, FastestRowValid, i) == FirstFrom(sheet, FastestRowValid, HeaderRows)
      invariant fastestFingerQuestion.None?
    {
      var q := ReadFastestTurn(sheet, i, id);
      if q.Some? {
        fastestFingerQuestion := q;
        break;
      }
      i := i + 1;
    }
    if fastestFingerQuestion.None? {
      NoValidRowLeft(sheet, i, id);
    }
  }

  /** The loop that walked past the last row found no valid one. */
  lemma NoValidRowLeft(sheet: Sheet, i: nat, id: Id)
    requires |sheet| <= i
    requires FirstFrom(sheet, FastestRowValid, i) == FirstFrom(sheet, FastestRowValid, HeaderRows)
    ensures FirstFastest(sheet, id).None?
  {
  }

  /** One turn of the ordering loop: row `i` either gives the sheet's question or passes the walk on. */
  method ReadFastestTurn(sheet: Sheet, i: nat, id: Id) returns (q: Option<FastestFinger>)
    requires HeaderRows <= i < |sheet|
    requires FirstFrom(sheet, FastestRowValid, i) == FirstFrom(sheet, FastestRowValid, HeaderRows)
    ensures q.Some? ==> q == FirstFastest(sheet, id)
    ensures q.None? ==> FirstFrom(sheet, FastestRowValid, i + 1) == FirstFrom(sheet, FastestRowValid, HeaderRows)
  {
    q := ReadFastestRow(sheet[i], id);
    FastestStep(sheet, i, id, q);
  }

  /** Everything `importXLSX` computes before it calls `setQuestions`. */
  method ReadWorkbook(wb: Workbook, uuid: IdSource) returns (r: Result<Imported, string>)
    requires WellFormed(wb)
    ensures r == ImportResult(wb, uuid)
  {
    var normalSheetName := FirstWhere(wb.sheetNames, IsNormalSheetName);
    var fastestSheetName := FirstWhere(wb.sheetNames, IsFastestSheetName);
    if normalSheetName.None? && fastestSheetName.None? {
      return Err(MissingSheetsMessage);
    }
    var regularQuestions := [];
    var fastestFingerQuestion := None;
    if normalSheetName.Some? {
      regularQuestions := ReadRegularSheet(wb.sheets[wb.sheetNames[normalSheetName.value]], uuid);
    }
    if fastestSheetName.Some? {
      fastestFingerQuestion := ReadFastestSheet(wb.sheets[wb.sheetNames[fastestSheetName.value]], uuid(|regularQuestions|));
    }
    r := Ok(Imported(fastestFingerQuestion, regularQuestions));
  }

  /** `importXLSX`: on success the store receives the records; on the error it is untouched. */
  method ImportXlsx(wb: Workbook, uuid: IdSource, store: QuestionStore) returns (r: Result<Imported, string>)
    requires WellFormed(wb)
    modifies store
    ensures r == ImportResult(wb, uuid)
    ensures r.Ok? ==> store.regular == r.value.regular
    ensures r.Ok? ==> store.fastest == if r.value.fastest.Some? then [r.value.fastest.value] else old(store.fastest)
    ensures r.Err? ==> store.regular == old(store.regular) && store.fastest == old(store.fastest)
  {
    r := ReadWorkbook(wb, uuid);
    if r.Ok? {
      store.SetQuestions(r.value);
    }
  }

  // ----- lemmas --------------------------------------------------------------------

  /** The import fails exactly when no sheet name passes either test. */
  lemma ImportFailsIff(wb: Workbook, uuid: IdSource)
    requires WellFormed(wb)
    ensures ImportResult(wb, uuid).Err? <==>
              forall i :: 0 <= i < |wb.sheetNames| ==> !IsNormalSheetName(wb.sheetNames[i]) && !IsFastestSheetName(wb.sheetNames[i])
    ensures ImportResult(wb, uuid).Err? ==> ImportResult(wb, uuid).error == MissingSheetsMessage
  {
  }

  /** Sheet names the export writes are found. */
  lemma ExportedSheetNamesFound()
    ensures IsNormalSheetName("NORMAL")
    ensures IsFastestSheetName("FASTEST FINGER FIRST")
  {
    assert OccursAt(Upper("NORMAL"), "NORMAL", 0);
    assert OccursAt("FASTEST FINGER FIRST", "FINGER", 8);
  }

  /** The header rows never matter: two sheets with the same rows from index 3 on import alike. */
  lemma HeaderRowsIgnored(s1: Sheet, s2: Sheet, uuid: IdSource, id: Id)
    requires |s1| >= HeaderRows && |s2| >= HeaderRows && s1[HeaderRows..] == s2[HeaderRows..]
    ensures RegularsFrom(DataRows(s1), uuid) == RegularsFrom(DataRows(s2), uuid)
    ensures FirstFastest(s1, id) == FirstFastest(s2, id)
  {
    assert |s1| == |s2|;
    forall j | HeaderRows <= j < |s1|
      ensures s1[j] == s2[j]
    {
      assert s1[j] == s1[HeaderRows..][j - HeaderRows];
    }
    FirstFromAgree(s1, s2, FastestRowValid, HeaderRows);
  }

  /**
   * A reference definition of the regular loop: keep the rows that pass the
   * test, then build the k-th kept row's record with the k-th id.
   */
  lemma {:induction false} RegularsFromIsFilterThenBuild(rows: seq<Row>, uuid: IdSource)
    ensures |RegularsFrom(rows, uuid)| == |Filter(rows, RegularRowKept)|
    ensures forall k :: 0 <= k < |RegularsFrom(rows, uuid)| ==>
              RegularsFrom(rows, uuid)[k] == RegularFromRow(Filter(rows, RegularRowKept)[k], uuid(k))
  {
    KeepAndBuildIsFilterThenBuild(rows, RegularRowKept, (row: Row, k: nat) => RegularFromRow(row, uuid(k)));
  }

  /** Every record the loop pushes comes from a kept row, in the same order. */
  lemma {:induction false} RegularProvenance(rows: seq<Row>, uuid: IdSource, k: nat)
    requires k < |RegularsFrom(rows, uuid)|
    ensures exists i :: 0 <= i < |rows| && RegularRowKept(rows[i]) && RegularsFrom(rows, uuid)[k] == RegularFromRow(rows[i], uuid(k))
  {
    RegularsFromIsFilterThenBuild(rows, uuid);
    var kept := Filter(rows, RegularRowKept);
    assert kept[k] in rows;
    var i :| 0 <= i < |rows| && rows[i] == kept[k];
  }

  /**
   * A record built from a kept row: category "Imported", not selected, no
   * difficulty, the trimmed texts, and at most one correct answer, the one
   * whose label is the upper-cased answer cell.
   */
  lemma RegularFromRowFacts(row: Row, id: Id, k: Letter)
    requires RegularRowKept(row)
    ensures var q := RegularFromRow(row, id);
      && q.category == "Imported" && !q.selected && q.difficulty.None?
      && q.text != "" && IsTrimmed(q.text)
      && (q.answers.a.text != "" || q.answers.b.text != "" || q.answers.c.text != "" || q.answers.d.text != "")
      && CorrectCount(q.answers) <= 1
      && (q.answers.Get(k).correct <==> Upper(CellText(row, 6)) == k.UpperName())
      && !DeclaredRegular(q)
  {
  }

  /** The ordering question taken from a row: selected, difficulty 0 (not a declared difficulty), a well-typed order. */
  lemma FastestFromRowFacts(row: Row, id: Id)
    requires FastestRowValid(row)
    ensures var q := FastestFromRow(row, id);
      && q.selected && q.difficulty == 0 && !DeclaredFastest(q)
      && WellTypedOrder(q.correctOrder)
      && q.text != "" && q.answers.a != "" && q.answers.b != "" && q.answers.c != "" && q.answers.d != ""
      && ParseCorrectOrder(CellText(row, 6)) == Some(q.correctOrder)
  {
  }

  /**
   * One turn of the ordering loop: row `i` either ends the walk with the
   * question the whole sheet imports, or passes it on to row `i + 1`.
   */
  lemma FastestStep(sheet: Sheet, i: nat, id: Id, q: Option<FastestFinger>)
    requires HeaderRows <= i < |sheet|
    requires FirstFrom(sheet, FastestRowValid, i) == FirstFrom(sheet, FastestRowValid, HeaderRows)
    requires q == if FastestRowValid(sheet[i]) then Some(FastestFromRow(sheet[i], id)) else None
    ensures q.Some? ==> q == FirstFastest(sheet, id)
    ensures q.None? ==> FirstFrom(sheet, FastestRowValid, i + 1) == FirstFrom(sheet, FastestRowValid, HeaderRows)
  {
    if q.Some? {
      FirstFromHit(sheet, FastestRowValid, i);
    } else {
      FirstFromSkip(sheet, FastestRowValid, i);
    }
  }

  /** No ordering question is taken exactly when no row after the header rows is valid. */
  lemma FirstFastestNoneIff(sheet: Sheet, id: Id)
    ensures FirstFastest(sheet, id).None? <==> NoneBetween(sheet, FastestRowValid, HeaderRows, |sheet|)
  {
    FirstFromNoneIff(sheet, FastestRowValid, HeaderRows);
  }

  /** The ordering question taken is the one built from the first valid row after the header rows. */
  lemma FirstFastestIsFirstValid(sheet: Sheet, k: nat, id: Id)
    requires HeaderRows <= k < |sheet| && FastestRowValid(sheet[k])
    requires NoneBetween(sheet, FastestRowValid, HeaderRows, k)
    ensures FirstFastest(sheet, id) == Some(FastestFromRow(sheet[k], id))
  {
    FirstFromIsFirst(sheet, FastestRowValid, HeaderRows, k);
  }

  /** The k-th record of the regular loop has the k-th id. */
  lemma RegularIds(rows: seq<Row>, uuid: IdSource)
    ensures forall k :: 0 <= k < |RegularsFrom(rows, uuid)| ==> RegularsFrom(rows, uuid)[k].id == uuid(k)
  {
    RegularsFromIsFilterThenBuild(rows, uuid);
  }

  /** The ids handed out are uuid(0), uuid(1), ... for the regular rows and the next one for the ordering row. */
  lemma ImportIds(wb: Workbook, uuid: IdSource)
    requires WellFormed(wb) && ImportResult(wb, uuid).Ok?
    ensures var imp := ImportResult(wb, uuid).value;
      && (forall k :: 0 <= k < |imp.regular| ==> imp.regular[k].id == uuid(k))
      && (imp.fastest.Some? ==> imp.fastest.value.id == uuid(|imp.regular|))
  {
    var normal := FirstWhere(wb.sheetNames, IsNormalSheetName);
    if normal.Some? {
      RegularIds(DataRows(wb.sheets[wb.sheetNames[normal.value]]), uuid);
    }
  }
}
