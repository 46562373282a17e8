/**
 * `ImportPanel`: the file chooser's acceptance test, and the three state
 * cells (`importType`, `loading`, `selectedFile`) its handlers update.
 * Reading the file (`file.text()`, `arrayBuffer()`) and the parsers behind
 * it are outside the model: `HandleImport` is handed what they produced.
 */
module ImportPanel {
  import opened Wrappers
  import opened JsString
  import opened Question
  import opened QuestionsContext
  import opened XmlTree
  import opened XmlImport
  import opened XlsxImport

  datatype ImportType = Xml | Xlsx

  /** The parts of a browser `File` the panel looks at. */
  datatype File = File(name: string, mimeType: string, size: nat)

  /** 10 MB, the largest file the chooser takes. */
  const MaxFileSize: nat := 10 * 1024 * 1024

  /** The MIME types `validTypes` lists for a mode. */
  function ValidTypes(t: ImportType): (r: seq<string>)
    ensures |r| == 2
  {
    match t
    case Xml => ["text/xml", "application/xml"]
    case Xlsx => ["application/vnd.openxmlformats-officedocument.spreadsheetml.sheet", "application/vnd.ms-excel"]
  }

  /** The file-name ending the mode also takes. */
  function Extension(t: ImportType): string {
    match t
    case Xml => ".xml"
    case Xlsx => ".xlsx"
  }

  /** `validTypes.some(type => file.type === type || name.toLowerCase().endsWith(ext))` */
  predicate TypeAccepted(t: ImportType, f: File) {
    exists i :: 0 <= i < |ValidTypes(t)| && (f.mimeType == ValidTypes(t)[i] || EndsWith(Lower(f.name), Extension(t)))
  }

  /** The two tests a chosen file must pass, the type first and the size second. */
  predicate Accepted(t: ImportType, f: File) {
    TypeAccepted(t, f) && f.size <= MaxFileSize
  }

  /** The toast a handler raises, if any. */
  datatype Notice =
    | Silent
    | WrongType(mode: ImportType)
    | TooLarge
    | NoFileChosen
    | ImportedFrom(mode: ImportType)
    | ImportFailed

  /**
   * What the selected file holds: well-formed XML and the document
   * `DOMParser` makes of it, a spreadsheet and the workbook `XLSX.read`
   * makes of it, or a file whose reading throws.
   */
  datatype Content = XmlDocument(root: Node) | SpreadsheetBook(wb: Workbook) | Unreadable

  /**
   * The document `DOMParser` returns for a file that is not XML from its
   * first character, such as a spreadsheet: it does not throw, it reports the
   * error inside the document, and with nothing parsed before the error that
   * document has no `fastest` and no `question` element. A file that goes
   * wrong further on may keep what was parsed before the error; that depends
   * on the browser and is covered only in general, by `XmlDocument(root)`.
   */
  const ParserErrorDocument: Node := Element("parsererror", [], [Text("")])

  /** The document the XML mode reads from the file's text. */
  function DocumentOf(content: Content): Node
    requires !content.Unreadable?
  {
    if content.XmlDocument? then content.root else ParserErrorDocument
  }

  /**
   * What the import of the selected file hands to `setQuestions` in the
   * given mode, or `None` when it throws. The XML mode parses whatever text
   * the file holds, and parsing never throws. The spreadsheet mode throws
   * for a file `XLSX.read` cannot take as a workbook, and for a workbook
   * without either sheet.
   */
  function Outcome(t: ImportType, content: Content, uuid: IdSource): (r: Option<Imported>)
    requires content.SpreadsheetBook? ==> WellFormed(content.wb)
  {
    match t
    case Xml =>
      if content.Unreadable? then None else Some(ParseResult(DocumentOf(content), uuid))
    case Xlsx =>
      if content.SpreadsheetBook? && ImportResult(content.wb, uuid).Ok? then Some(ImportResult(content.wb, uuid).value) else None
  }

  class Panel {
    var importType: ImportType
    var loading: bool
    var selectedFile: Option<File>

    /**
     * Between two handlers nothing is loading, and a selected file passed the
     * type test of some mode (not necessarily the current one: switching tabs
     * keeps the file) and the size test.
     */
    predicate Valid()
      reads this
    {
      && !loading
      && (selectedFile.Some? ==>
            (TypeAccepted(Xml, selectedFile.value) || TypeAccepted(Xlsx, selectedFile.value))
            && selectedFile.value.size <= MaxFileSize)
    }

    constructor ()
      ensures importType == Xml && !loading && selectedFile.None?
      ensures Valid()
    {
      importType := Xml;
      loading := false;
      selectedFile := None;
    }

    /** `handleFileChange`: `files` is the input's file list; only its first file is looked at. */
    method HandleFileChange(files: seq<File>) returns (notice: Notice)
      requires Valid()
      modifies this
      ensures Valid()
      ensures importType == old(importType) && loading == old(loading)
      ensures files == [] ==> selectedFile.None? && notice == Silent
      ensures files != [] && !TypeAccepted(importType, files[0]) ==>
                selectedFile == old(selectedFile) && notice == WrongType(importType)
      ensures files != [] && TypeAccepted(importType, files[0]) && files[0].size > MaxFileSize ==>
                selectedFile == old(selectedFile) && notice == TooLarge
      ensures files != [] && Accepted(importType, files[0]) ==> selectedFile == Some(files[0]) && notice == Silent
    {
      var file := if files != [] then Some(files[0]) else None;
      if file.Some? {
        if !TypeAccepted(importType, file.value) {
          return WrongType(importType);
        }
        if file.value.size > MaxFileSize {
          return TooLarge;
        }
        assert TypeAccepted(Xml, file.value) || TypeAccepted(Xlsx, file.value) by {
          if importType == Xml {
            assert TypeAccepted(Xml, file.value);
          } else {
            assert TypeAccepted(Xlsx, file.value);
          }
        }
      }
      selectedFile := file;
      notice := Silent;
    }

    /**
     * `handleImport`, with the outcome of reading and parsing the selected
     * file given as `content` and the ids the import draws as `uuid`.
     */
    method HandleImport(content: Content, uuid: IdSource, store: QuestionStore) returns (notice: Notice)
      requires Valid()
      requires content.SpreadsheetBook? ==> WellFormed(content.wb)
      modifies this, store
      ensures Valid()
      ensures importType == old(importType)
      ensures old(selectedFile).None? ==>
                notice == NoFileChosen && selectedFile.None?
                && store.regular == old(store.regular) && store.fastest == old(store.fastest)
      ensures old(selectedFile).Some? && Outcome(importType, content, uuid).None? ==>
                notice == ImportFailed && selectedFile == old(selectedFile)
                && store.regular == old(store.regular) && store.fastest == old(store.fastest)
      ensures old(selectedFile).Some? && Outcome(importType, content, uuid).Some? ==>
                var r := Outcome(importType, content, uuid).value;
                && notice == ImportedFrom(importType) && selectedFile.None?
                && store.regular == r.regular
                && store.fastest == (if r.fastest.Some? then [r.fastest.value] else old(store.fastest))
    {
      if selectedFile.None? {
        return NoFileChosen;
      }
      loading := true;
      var ok := false;
      if importType == Xml {
        if !content.Unreadable? {
          var r := ImportXml(DocumentOf(content), uuid, store);
          ok := true;
        }
      } else {
        if content.SpreadsheetBook? {
          var r := ImportXlsx(content.wb, uuid, store);
          ok := r.Ok?;
        }
      }
      if ok {
        selectedFile := None;
        notice := ImportedFrom(importType);
      } else {
        notice := ImportFailed;
      }
      loading := false;
    }

    /** `clearFile` */
    method ClearFile()
      requires Valid()
      modifies this
      ensures Valid()
      ensures selectedFile.None? && importType == old(importType) && loading == old(loading)
    {
      selectedFile := None;
    }

    /** The tabs' `onValueChange`: the mode changes and the chosen file stays. */
    method SetImportType(t: ImportType)
      requires Valid()
      modifies this
      ensures Valid()
      ensures importType == t && selectedFile == old(selectedFile) && loading == old(loading)
    {
      importType := t;
    }
  }

  // ----- lemmas --------------------------------------------------------------------

  /** A file passes exactly when its MIME type is one of the mode's or its lower-cased name has the mode's ending, and it is at most 10 MB. */
  lemma AcceptedIff(t: ImportType, f: File)
    ensures Accepted(t, f) <==>
      (f.mimeType in ValidTypes(t) || EndsWith(Lower(f.name), Extension(t))) && f.size <= MaxFileSize
  {
    if f.mimeType in ValidTypes(t) {
      var i :| 0 <= i < |ValidTypes(t)| && ValidTypes(t)[i] == f.mimeType;
      assert f.mimeType == ValidTypes(t)[i];
    }
    if EndsWith(Lower(f.name), Extension(t)) {
      assert f.mimeType == ValidTypes(t)[0] || EndsWith(Lower(f.name), Extension(t));
    }
  }

  /** The name test ignores letter case: "Quiz.XML" passes in the XML mode whatever its MIME type. */
  lemma UpperCaseExtension(mime: string, size: nat)
    requires size <= MaxFileSize
    ensures Accepted(Xml, File("Quiz.XML", mime, size))
  {
    var name := "Quiz.XML";
    assert Lower(name)[4..] == ".xml";
    AcceptedIff(Xml, File(name, mime, size));
  }

  /** A file taken in one mode can be refused in the other, yet switching tabs keeps it selected. */
  lemma ModeMatters()
    ensures Accepted(Xml, File("quiz.xml", "text/xml", 1))
    ensures !Accepted(Xlsx, File("quiz.xml", "text/xml", 1))
  {
    var f := File("quiz.xml", "text/xml", 1);
    AcceptedIff(Xml, f);
    AcceptedIff(Xlsx, f);
    assert Lower(f.name)[4..] == ".xml";
    assert Lower(f.name)[3] == 'z' && ".xlsx"[0] == '.';
  }

  /** The parser's error document holds nothing to import. */
  lemma ParserErrorImportsNothing(uuid: IdSource)
    ensures ParseResult(ParserErrorDocument, uuid) == Imported(None, [])
  {
    var ls := DocumentElements(ParserErrorDocument);
    assert ls == [Located(ParserErrorDocument, false)] by {
      assert Walk([Text("")], false) == [];
    }
    assert !Matches(ls[0], Tag("fastest")) && !Matches(ls[0], Tag("question")) by {
      assert "parsererror"[0] != "fastest"[0] && "parsererror"[0] != "question"[0];
    }
    assert All(ls, Tag("question")) == [];
  }

  /**
   * An XML document always imports in the XML mode. A spreadsheet imported
   * in the XML mode also "succeeds", with no question at all, so the regular
   * list is emptied. A workbook fails in the spreadsheet mode exactly when
   * neither sheet name is found.
   */
  lemma OutcomeFacts(t: ImportType, content: Content, uuid: IdSource)
    requires content.SpreadsheetBook? ==> WellFormed(content.wb)
    ensures t == Xml && content.XmlDocument? ==> Outcome(t, content, uuid) == Some(ParseResult(content.root, uuid))
    ensures t == Xml && content.SpreadsheetBook? ==> Outcome(t, content, uuid) == Some(Imported(None, []))
    ensures t == Xlsx && content.XmlDocument? ==> Outcome(t, content, uuid).None?
    ensures t == Xlsx && content.SpreadsheetBook? ==>
      (Outcome(t, content, uuid).None? <==>
        forall i :: 0 <= i < |content.wb.sheetNames| ==>
          !IsNormalSheetName(content.wb.sheetNames[i]) && !IsFastestSheetName(content.wb.sheetNames[i]))
    ensures content.Unreadable? ==> Outcome(t, content, uuid).None?
  {
    if t == Xlsx && content.SpreadsheetBook? {
      ImportFailsIff(content.wb, uuid);
    }
    if t == Xml && content.SpreadsheetBook? {
      ParserErrorImportsNothing(uuid);
    }
  }
}
