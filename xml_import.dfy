/**
 * `parseXML` and `importXML`: the records read off a parsed document. The
 * document is the element tree of `XmlTree`; parsing the text into it is the
 * browser's `DOMParser` and is not modelled.
 */
module XmlImport {
  import opened Wrappers
  import opened JsString
  import opened Question
  import opened Seqs
  import opened XmlTree
  import opened QuestionsContext

  /** `node.querySelector(sel)?.textContent || dflt` */
  function TextOr(found: Option<Located>, dflt: string): string {
    if found.Some? && TextContent(found.value.node) != "" then TextContent(found.value.node) else dflt
  }

  /** `Number(attr) || 0`: `Number(null)` is 0 and `NaN` is falsy. */
  function DifficultyOf(attr: Option<string>): (d: int)
    ensures attr.None? ==> d == 0
    ensures attr.Some? && NumberValue(attr.value).None? ==> d == 0
    ensures attr.Some? && NumberValue(attr.value).Some? ==> d == NumberValue(attr.value).value
  {
    if attr.None? then 0
    else match NumberValue(attr.value)
      case None => 0
      case Some(v) => v
  }

  /** The record built from the first `fastest` element, if its text and four options are present. */
  function FastestOf(fastest: Located, id: Id): (r: Option<FastestFinger>)
  {
    var below := Below(fastest);
    var text := TextOr(First(below, Tag("text")), "");
    var a := TextOr(First(below, Tag("a")), "");
    var b := TextOr(First(below, Tag("b")), "");
    var c := TextOr(First(below, Tag("c")), "");
    var d := TextOr(First(below, Tag("d")), "");
    var one := TextOr(First(below, InOrder("one")), "a");
    var two := TextOr(First(below, InOrder("two")), "b");
    var three := TextOr(First(below, InOrder("three")), "c");
    var four := TextOr(First(below, InOrder("four")), "d");
    var difficulty := DifficultyOf(GetAttribute(fastest.node, "difficulty"));
    if text != "" && a != "" && b != "" && c != "" && d != "" then
      Some(FastestFinger(id, text, Options(a, b, c, d), Order(one, two, three, four), false, difficulty))
    else None
  }

  /** `node.querySelector('text')?.textContent?.trim()`, with a missing element as "". */
  function QuestionText(q: Located): (t: string)
    ensures IsTrimmed(t)
  {
    var found := First(Below(q), Tag("text"));
    if found.Some? then Trim(TextContent(found.value.node)) else ""
  }

  /** A `question` element yields a record when its trimmed text is non-empty. */
  predicate QuestionKept(q: Located) {
    QuestionText(q) != ""
  }

  /** An answer element: its text content and whether `correct` is exactly "yes"; a missing one is empty and wrong. */
  function AnswerOf(q: Located, name: string): (r: Answer) {
    var found := First(Below(q), Tag(name));
    if found.None? then Answer("", false)
    else Answer(TextOr(found, ""), GetAttribute(found.value.node, "correct") == Some("yes"))
  }

  function RegularOf(q: Located, id: Id): Regular {
    var found := First(Below(q), Tag("category"));
    var category := if found.Some? then Trim(TextContent(found.value.node)) else "";
    Regular(id, category, QuestionText(q),
      Answers(AnswerOf(q, "a"), AnswerOf(q, "b"), AnswerOf(q, "c"), AnswerOf(q, "d")),
      false, None)
  }

  /** `regularQuestions` after the `forEach` over `nodes`; ids continue from `first`. */
  function QuestionsFrom(nodes: seq<Located>, uuid: IdSource, first: nat): (r: seq<Regular>)
    ensures |r| <= |nodes|
  {
    KeepAndBuild(nodes, QuestionKept, Builder(uuid, first))
  }

  /** The record the k-th kept element yields. */
  function Builder(uuid: IdSource, first: nat): (Located, nat) -> Regular {
    (q: Located, k: nat) => RegularOf(q, uuid(first + k))
  }

  /** The first `fastest` element of the document, if any. */
  function FastestNode(root: Node): Option<Located> {
    First(DocumentElements(root), Tag("fastest"))
  }

  /** `questionNodes`: every `question` element, in document order. */
  function QuestionNodes(root: Node): seq<Located> {
    All(DocumentElements(root), Tag("question"))
  }

  /** What `parseXML` returns; the ordering question takes the first id when there is one. */
  function ParseResult(root: Node, uuid: IdSource): Imported {
    var fastestNode := FastestNode(root);
    var ff := if fastestNode.Some? then FastestOf(fastestNode.value, uuid(0)) else None;
    Imported(ff, QuestionsFrom(QuestionNodes(root), uuid, if ff.Some? then 1 else 0))
  }

  /** The `forEach` over the question elements. */
  method ReadQuestions(questionNodes: seq<Located>, uuid: IdSource, first: nat) returns (regularQuestions: seq<Regular>)
    ensures regularQuestions == QuestionsFrom(questionNodes, uuid, first)
  {
    regularQuestions := [];
    var i := 0;
    while i < |questionNodes|
      invariant i <= |questionNodes|
      invariant regularQuestions == QuestionsFrom(questionNodes[..i], uuid, first)
    {
      var node := questionNodes[i];
      assert questionNodes[..i + 1] == questionNodes[..i] + [node];
      KeepAndBuildSnoc(questionNodes[..i], node, QuestionKept, Builder(uuid, first));
      var text := QuestionText(node);
      if text != "" {
        regularQuestions := regularQuestions + [RegularOf(node, uuid(first + |regularQuestions|))];
      }
      i := i + 1;
    }
    assert questionNodes[..i] == questionNodes;
  }

  /** `parseXML` over the parsed document. */
  method ParseXml(root: Node, uuid: IdSource) returns (r: Imported)
    ensures r == ParseResult(root, uuid)
  {
    var fastestNode := FastestNode(root);
    var fastestFingerQuestion := None;
    var calls := 0;
    if fastestNode.Some? {
      fastestFingerQuestion := FastestOf(fastestNode.value, uuid(0));
      if fastestFingerQuestion.Some? {
        calls := 1;
      }
    }
    var regularQuestions := ReadQuestions(QuestionNodes(root), uuid, calls);
    r := Imported(fastestFingerQuestion, regularQuestions);
  }

  /** `importXML`: the records go to `setQuestions`. */
  method ImportXml(root: Node, uuid: IdSource, store: QuestionStore) returns (r: Imported)
    modifies store
    ensures r == ParseResult(root, uuid)
    ensures store.regular == r.regular
    ensures store.fastest == if r.fastest.Some? then [r.fastest.value] else old(store.fastest)
  {
    r := ParseXml(root, uuid);
    store.SetQuestions(r);
  }

  // ----- lemmas --------------------------------------------------------------------

  /**
   * The ordering record: present exactly when the text and the four options
   * of the element are non-empty, taken as they are (not trimmed), never
   * selected; a missing or empty order slot becomes 'a', 'b', 'c', 'd'.
   */
  lemma FastestOfFacts(fastest: Located, id: Id)
    ensures var below := Below(fastest);
      var r := FastestOf(fastest, id);
      && (r.Some? <==>
            (&& TextOr(First(below, Tag("text")), "") != ""
             && TextOr(First(below, Tag("a")), "") != "" && TextOr(First(below, Tag("b")), "") != ""
             && TextOr(First(below, Tag("c")), "") != "" && TextOr(First(below, Tag("d")), "") != ""))
      && (r.Some? ==>
            && r.value.id == id && !r.value.selected
            && r.value.text == TextContent(First(below, Tag("text")).value.node)
            && r.value.answers.a == TextContent(First(below, Tag("a")).value.node)
            && r.value.answers.b == TextContent(First(below, Tag("b")).value.node)
            && r.value.answers.c == TextContent(First(below, Tag("c")).value.node)
            && r.value.answers.d == TextContent(First(below, Tag("d")).value.node)
            && (var one := First(below, InOrder("one"));
                r.value.correctOrder.one == if one.Some? && TextContent(one.value.node) != "" then TextContent(one.value.node) else "a")
            && (var two := First(below, InOrder("two"));
                r.value.correctOrder.two == if two.Some? && TextContent(two.value.node) != "" then TextContent(two.value.node) else "b")
            && (var three := First(below, InOrder("three"));
                r.value.correctOrder.three == if three.Some? && TextContent(three.value.node) != "" then TextContent(three.value.node) else "c")
            && (var four := First(below, InOrder("four"));
                r.value.correctOrder.four == if four.Some? && TextContent(four.value.node) != "" then TextContent(four.value.node) else "d")
            && r.value.difficulty == DifficultyOf(GetAttribute(fastest.node, "difficulty")))
  {
  }

  /** The difficulty is 0 when the attribute is absent or is not a number, and the number otherwise. */
  lemma DifficultyOfDecimal(d: int)
    ensures DifficultyOf(Some(IntToDecimal(d))) == d
    ensures DifficultyOf(None) == 0
  {
    NumberOfDecimal(d);
  }

  /**
   * Each regular record: kept for a non-empty trimmed text, with that text and
   * the trimmed category, never selected, no difficulty, and an answer
   * correct exactly when its element's `correct` attribute is "yes".
   */
  lemma RegularOfFacts(q: Located, id: Id, k: Letter)
    requires QuestionKept(q)
    ensures var r := RegularOf(q, id);
      && r.id == id && r.text != "" && IsTrimmed(r.text) && IsTrimmed(r.category)
      && !r.selected && r.difficulty.None? && !DeclaredRegular(r)
      && (r.answers.Get(k).correct <==> var found := First(Below(q), Tag(k.Name()));
            found.Some? && GetAttribute(found.value.node, "correct") == Some("yes"))
      && (First(Below(q), Tag(k.Name())).None? ==> r.answers.Get(k) == Answer("", false))
  {
    var found := First(Below(q), Tag("category"));
    if found.Some? {
      TrimIdempotent(TextContent(found.value.node));
    }
  }

  /** One record per kept `question` element, in document order. */
  lemma QuestionsFromFilter(nodes: seq<Located>, uuid: IdSource, first: nat)
    ensures |QuestionsFrom(nodes, uuid, first)| == Count(nodes, QuestionKept)
    ensures forall k :: 0 <= k < |QuestionsFrom(nodes, uuid, first)| ==>
              QuestionsFrom(nodes, uuid, first)[k] == RegularOf(Filter(nodes, QuestionKept)[k], uuid(first + k))
  {
    var r := QuestionsFrom(nodes, uuid, first);
    var kept := Filter(nodes, QuestionKept);
    KeepAndBuildIsFilterThenBuild(nodes, QuestionKept, Builder(uuid, first));
    forall k | 0 <= k < |r|
      ensures r[k] == RegularOf(kept[k], uuid(first + k))
    {
      BuilderApply(kept[k], uuid, first, k);
    }
  }

  lemma BuilderApply(q: Located, uuid: IdSource, first: nat, k: nat)
    ensures Builder(uuid, first)(q, k) == RegularOf(q, uuid(first + k))
  {
  }

  /** The records of the loop are unselected and carry the ids uuid(first), uuid(first + 1), ... */
  lemma QuestionsFromIds(nodes: seq<Located>, uuid: IdSource, first: nat)
    ensures var r := QuestionsFrom(nodes, uuid, first);
      forall k :: 0 <= k < |r| ==> r[k].id == uuid(first + k) && !r[k].selected && r[k].difficulty.None?
  {
    QuestionsFromFilter(nodes, uuid, first);
  }

  /** Nothing imported is selected, and the ids are uuid(0), uuid(1), ... in call order. */
  lemma ParseResultSelectionAndIds(root: Node, uuid: IdSource)
    ensures var r := ParseResult(root, uuid);
      && (r.fastest.Some? ==> !r.fastest.value.selected && r.fastest.value.id == uuid(0))
      && (forall k :: 0 <= k < |r.regular| ==> !r.regular[k].selected)
      && (forall k :: 0 <= k < |r.regular| ==> r.regular[k].id == uuid((if r.fastest.Some? then 1 else 0) + k))
  {
    var r := ParseResult(root, uuid);
    QuestionsFromIds(QuestionNodes(root), uuid, if r.fastest.Some? then 1 else 0);
  }

  /** A document without a `fastest` element gives no ordering question. */
  lemma NoFastestElement(root: Node, uuid: IdSource)
    requires forall i :: 0 <= i < |DocumentElements(root)| ==> !Matches(DocumentElements(root)[i], Tag("fastest"))
    ensures ParseResult(root, uuid).fastest.None?
  {
  }
}
