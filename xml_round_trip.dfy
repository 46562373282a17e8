/**
 * Exporting to XML and importing the result: `parseXML` over the tree that
 * `generateXML`'s text spells out gives back the questions, with the changes
 * the import makes (fresh ids, nothing selected, trimmed regular text and
 * category, defaults for empty order slots, questions with blank text
 * dropped).
 */
module XmlRoundTrip {
  import opened Wrappers
  import opened JsString
  import opened Question
  import opened Seqs
  import opened XmlTree
  import opened XmlImport
  import opened XmlExport

  // ----- the elements of the exported tree, in document order ----------------------

  lemma WalkLeaf(tag: string, attrs: seq<Attr>, t: string, u: bool)
    ensures Walk([Element(tag, attrs, [Text(t)])], u) == [Located(Element(tag, attrs, [Text(t)]), u)]
  {
    WalkOne(Element(tag, attrs, [Text(t)]), u);
    assert [Text(t)][1..] == [];
  }

  lemma {:induction false} WalkIndented(indent: string, es: seq<Node>, u: bool)
    ensures Walk(Indented(indent, es), u) == Walk(es, u)
  {
    if es != [] {
      var init, e := es[..|es| - 1], es[|es| - 1];
      WalkIndented(indent, init, u);
      WalkAppend(Indented(indent, init), [Text("\n" + indent), e], u);
      assert [Text("\n" + indent), e][1..] == [e];
      assert es == init + [e];
      WalkAppend(init, [e], u);
    }
  }

  /** Under a nested element: itself, then the elements of its children. */
  lemma WalkNest(tag: string, attrs: seq<Attr>, inner: string, outer: string, es: seq<Node>, u: bool)
    ensures Walk([Nest(tag, attrs, inner, outer, es)], u)
         == [Located(Nest(tag, attrs, inner, outer, es), u)] + Walk(es, u || tag == OrderTag)
    ensures Below(Located(Nest(tag, attrs, inner, outer, es), u)) == Walk(es, u || tag == OrderTag)
  {
    var v := u || tag == OrderTag;
    WalkOne(Nest(tag, attrs, inner, outer, es), u);
    WalkAppend(Indented(inner, es), [Text("\n" + outer)], v);
    assert [Text("\n" + outer)][1..] == [];
    WalkIndented(inner, es, v);
  }

  lemma WalkFour(e1: Node, e2: Node, e3: Node, e4: Node, u: bool)
    ensures Walk([e1, e2, e3, e4], u) == Walk([e1], u) + Walk([e2], u) + Walk([e3], u) + Walk([e4], u)
  {
    assert [e1, e2, e3, e4] == [e1, e2, e3] + [e4];
    assert [e1, e2, e3] == [e1, e2] + [e3];
    assert [e1, e2] == [e1] + [e2];
    WalkAppend([e1, e2, e3], [e4], u);
    WalkAppend([e1, e2], [e3], u);
    WalkAppend([e1], [e2], u);
  }

  lemma WalkSix(e1: Node, e2: Node, e3: Node, e4: Node, e5: Node, e6: Node, u: bool)
    ensures Walk([e1, e2, e3, e4, e5, e6], u) == Walk([e1, e2, e3, e4], u) + Walk([e5], u) + Walk([e6], u)
  {
    assert [e1, e2, e3, e4, e5, e6] == [e1, e2, e3, e4, e5] + [e6];
    assert [e1, e2, e3, e4, e5] == [e1, e2, e3, e4] + [e5];
    WalkAppend([e1, e2, e3, e4, e5], [e6], u);
    WalkAppend([e1, e2, e3, e4], [e5], u);
  }

  function Loc(e: Node, u: bool): Located {
    Located(e, u)
  }

  /** The elements of an order element: itself, then its four slots, each under `correctOrder`. */
  lemma WalkOrder(o: Order, u: bool)
    ensures Walk([OrderElement(o)], u) == [Loc(OrderElement(o), u),
      Loc(Field("one", o.one), true), Loc(Field("two", o.two), true),
      Loc(Field("three", o.three), true), Loc(Field("four", o.four), true)]
  {
    var f1, f2, f3, f4 := Field("one", o.one), Field("two", o.two), Field("three", o.three), Field("four", o.four);
    WalkNest(OrderTag, [], "\t\t\t", "\t\t", [f1, f2, f3, f4], u);
    WalkFour(f1, f2, f3, f4, true);
    WalkLeaf("one", [], o.one, true);
    WalkLeaf("two", [], o.two, true);
    WalkLeaf("three", [], o.three, true);
    WalkLeaf("four", [], o.four, true);
  }

  /** The elements below the fastest element, in document order. */
  function FastestBelow(q: FastestFinger): seq<Located> {
    [Loc(Field("text", q.text), false), Loc(Field("a", q.answers.a), false), Loc(Field("b", q.answers.b), false),
     Loc(Field("c", q.answers.c), false), Loc(Field("d", q.answers.d), false), Loc(OrderElement(q.correctOrder), false),
     Loc(Field("one", q.correctOrder.one), true), Loc(Field("two", q.correctOrder.two), true),
     Loc(Field("three", q.correctOrder.three), true), Loc(Field("four", q.correctOrder.four), true)]
  }

  lemma WalkFastest(q: FastestFinger)
    ensures Walk([FastestElement(q)], false) == [Loc(FastestElement(q), false)] + FastestBelow(q)
    ensures Below(Loc(FastestElement(q), false)) == FastestBelow(q)
  {
    var f1, f2, f3 := Field("text", q.text), Field("a", q.answers.a), Field("b", q.answers.b);
    var f4, f5, f6 := Field("c", q.answers.c), Field("d", q.answers.d), OrderElement(q.correctOrder);
    var attrs := [Attr("difficulty", IntToDecimal(q.difficulty))];
    WalkNest("fastest", attrs, "\t\t", "\t", [f1, f2, f3, f4, f5, f6], false);
    WalkSix(f1, f2, f3, f4, f5, f6, false);
    WalkFour(f1, f2, f3, f4, false);
    WalkLeaf("text", [], q.text, false);
    WalkLeaf("a", [], q.answers.a, false);
    WalkLeaf("b", [], q.answers.b, false);
    WalkLeaf("c", [], q.answers.c, false);
    WalkLeaf("d", [], q.answers.d, false);
    WalkOrder(q.correctOrder, false);
  }

  /** The elements below a question element, in document order. */
  function QuestionBelow(q: Regular): seq<Located> {
    [Loc(Field("category", q.category), false), Loc(Field("text", q.text), false),
     Loc(AnswerElement("a", q.answers.a), false), Loc(AnswerElement("b", q.answers.b), false),
     Loc(AnswerElement("c", q.answers.c), false), Loc(AnswerElement("d", q.answers.d), false)]
  }

  lemma WalkQuestion(q: Regular)
    ensures Walk([QuestionElement(q)], false) == [Loc(QuestionElement(q), false)] + QuestionBelow(q)
    ensures Below(Loc(QuestionElement(q), false)) == QuestionBelow(q)
  {
    var f1, f2 := Field("category", q.category), Field("text", q.text);
    var f3, f4 := AnswerElement("a", q.answers.a), AnswerElement("b", q.answers.b);
    var f5, f6 := AnswerElement("c", q.answers.c), AnswerElement("d", q.answers.d);
    WalkNest("question", [], "\t\t", "\t", [f1, f2, f3, f4, f5, f6], false);
    WalkSix(f1, f2, f3, f4, f5, f6, false);
    WalkFour(f1, f2, f3, f4, false);
    WalkLeaf("category", [], q.category, false);
    WalkLeaf("text", [], q.text, false);
    WalkLeaf("a", [Attr("correct", YesNo(q.answers.a.correct))], q.answers.a.text, false);
    WalkLeaf("b", [Attr("correct", YesNo(q.answers.b.correct))], q.answers.b.text, false);
    WalkLeaf("c", [Attr("correct", YesNo(q.answers.c.correct))], q.answers.c.text, false);
    WalkLeaf("d", [Attr("correct", YesNo(q.answers.d.correct))], q.answers.d.text, false);
  }

  // ----- what the queries find -----------------------------------------------------

  lemma FirstCons(x: Located, r: seq<Located>, sel: Selector)
    ensures First([x] + r, sel) == if Matches(x, sel) then Some(x) else First(r, sel)
  {
    assert ([x] + r)[0] == x && ([x] + r)[1..] == r;
  }

  lemma FirstFour(x1: Located, x2: Located, x3: Located, x4: Located, sel: Selector)
    ensures First([x1, x2, x3, x4], sel) ==
      if Matches(x1, sel) then Some(x1) else if Matches(x2, sel) then Some(x2)
      else if Matches(x3, sel) then Some(x3) else if Matches(x4, sel) then Some(x4) else None
  {
    assert [x1, x2, x3, x4] == [x1] + ([x2] + ([x3] + ([x4] + [])));
    FirstCons(x1, [x2] + ([x3] + ([x4] + [])), sel);
    FirstCons(x2, [x3] + ([x4] + []), sel);
    FirstCons(x3, [x4] + [], sel);
    FirstCons(x4, [], sel);
  }

  lemma FirstSix(x1: Located, x2: Located, x3: Located, x4: Located, x5: Located, x6: Located, sel: Selector)
    ensures First([x1, x2, x3, x4, x5, x6], sel) ==
      if Matches(x1, sel) then Some(x1) else if Matches(x2, sel) then Some(x2)
      else if Matches(x3, sel) then Some(x3) else if Matches(x4, sel) then Some(x4)
      else if Matches(x5, sel) then Some(x5) else if Matches(x6, sel) then Some(x6) else None
  {
    assert [x1, x2, x3, x4, x5, x6] == [x1, x2, x3, x4] + ([x5] + ([x6] + []));
    FirstAppend([x1, x2, x3, x4], [x5] + ([x6] + []), sel);
    FirstFour(x1, x2, x3, x4, sel);
    FirstCons(x5, [x6] + [], sel);
    FirstCons(x6, [], sel);
  }

  lemma FirstTen(x1: Located, x2: Located, x3: Located, x4: Located, x5: Located, x6: Located,
                 x7: Located, x8: Located, x9: Located, x10: Located, sel: Selector)
    ensures First([x1, x2, x3, x4, x5, x6, x7, x8, x9, x10], sel) ==
      if First([x1, x2, x3, x4, x5, x6], sel).Some? then First([x1, x2, x3, x4, x5, x6], sel)
      else First([x7, x8, x9, x10], sel)
  {
    assert [x1, x2, x3, x4, x5, x6, x7, x8, x9, x10] == [x1, x2, x3, x4, x5, x6] + [x7, x8, x9, x10];
    FirstAppend([x1, x2, x3, x4, x5, x6], [x7, x8, x9, x10], sel);
  }

  lemma LeafText(tag: string, attrs: seq<Attr>, t: string)
    ensures TextContent(Element(tag, attrs, [Text(t)])) == t
  {
    assert [Text(t)][1..] == [];
    assert ForestText([Text(t)][1..]) == "";
    assert t + "" == t;
  }

  lemma FieldText(tag: string, v: string, dflt: string, u: bool)
    ensures TextContent(Field(tag, v)) == v
    ensures TextOr(Some(Loc(Field(tag, v), u)), dflt) == if v != "" then v else dflt
  {
    assert [Text(v)][1..] == [];
    assert ForestText([Text(v)][1..]) == "";
    assert v + "" == v;
  }

  /** An order slot as the import reads it back: an empty one becomes its default letter. */
  function SlotOr(slot: string, dflt: string): string {
    if slot != "" then slot else dflt
  }

  function Defaulted(o: Order): Order {
    Order(SlotOr(o.one, "a"), SlotOr(o.two, "b"), SlotOr(o.three, "c"), SlotOr(o.four, "d"))
  }

  /** The text and the four options are the first matches of their tags below the fastest element. */
  lemma FastestOptionsFound(q: FastestFinger)
    ensures var below := FastestBelow(q);
      && First(below, Tag("text")) == Some(Loc(Field("text", q.text), false))
      && First(below, Tag("a")) == Some(Loc(Field("a", q.answers.a), false))
      && First(below, Tag("b")) == Some(Loc(Field("b", q.answers.b), false))
      && First(below, Tag("c")) == Some(Loc(Field("c", q.answers.c), false))
      && First(below, Tag("d")) == Some(Loc(Field("d", q.answers.d), false))
  {
    FieldFound(q, "text", q.text);
    FieldFound(q, "a", q.answers.a);
    FieldFound(q, "b", q.answers.b);
    FieldFound(q, "c", q.answers.c);
    FieldFound(q, "d", q.answers.d);
  }

  /** The question text and the options come before the order element, each once. */
  lemma FieldFound(q: FastestFinger, name: string, v: string)
    requires || (name == "text" && v == q.text) || (name == "a" && v == q.answers.a)
             || (name == "b" && v == q.answers.b) || (name == "c" && v == q.answers.c)
             || (name == "d" && v == q.answers.d)
    ensures First(FastestBelow(q), Tag(name)) == Some(Loc(Field(name, v), false))
  {
    var o := q.correctOrder;
    var x1, x2, x3 := Loc(Field("text", q.text), false), Loc(Field("a", q.answers.a), false), Loc(Field("b", q.answers.b), false);
    var x4, x5, x6 := Loc(Field("c", q.answers.c), false), Loc(Field("d", q.answers.d), false), Loc(OrderElement(o), false);
    var x7, x8 := Loc(Field("one", o.one), true), Loc(Field("two", o.two), true);
    var x9, x10 := Loc(Field("three", o.three), true), Loc(Field("four", o.four), true);
    FirstSix(x1, x2, x3, x4, x5, x6, Tag(name));
    FirstTen(x1, x2, x3, x4, x5, x6, x7, x8, x9, x10, Tag(name));
  }

  /** Nothing above the order element lies under `correctOrder`. */
  lemma FastestSlotsUnderOrder(q: FastestFinger, name: string)
    ensures var o := q.correctOrder;
      First(FastestBelow(q), InOrder(name)) == First([Loc(Field("one", o.one), true), Loc(Field("two", o.two), true),
        Loc(Field("three", o.three), true), Loc(Field("four", o.four), true)], InOrder(name))
  {
    var o := q.correctOrder;
    var x1, x2, x3 := Loc(Field("text", q.text), false), Loc(Field("a", q.answers.a), false), Loc(Field("b", q.answers.b), false);
    var x4, x5, x6 := Loc(Field("c", q.answers.c), false), Loc(Field("d", q.answers.d), false), Loc(OrderElement(o), false);
    var x7, x8 := Loc(Field("one", o.one), true), Loc(Field("two", o.two), true);
    var x9, x10 := Loc(Field("three", o.three), true), Loc(Field("four", o.four), true);
    FirstTen(x1, x2, x3, x4, x5, x6, x7, x8, x9, x10, InOrder(name));
    FirstSix(x1, x2, x3, x4, x5, x6, InOrder(name));
  }

  lemma SlotFound(q: FastestFinger, name: string, v: string)
    requires var o := q.correctOrder;
      || (name == "one" && v == o.one) || (name == "two" && v == o.two)
      || (name == "three" && v == o.three) || (name == "four" && v == o.four)
    ensures First(FastestBelow(q), InOrder(name)) == Some(Loc(Field(name, v), true))
  {
    var o := q.correctOrder;
    FastestSlotsUnderOrder(q, name);
    FirstFour(Loc(Field("one", o.one), true), Loc(Field("two", o.two), true),
      Loc(Field("three", o.three), true), Loc(Field("four", o.four), true), InOrder(name));
  }

  /** Each order slot is the only element of its tag under `correctOrder`. */
  lemma FastestSlotsFound(q: FastestFinger)
    ensures var below := FastestBelow(q);
      var o := q.correctOrder;
      && First(below, InOrder("one")) == Some(Loc(Field("one", o.one), true))
      && First(below, InOrder("two")) == Some(Loc(Field("two", o.two), true))
      && First(below, InOrder("three")) == Some(Loc(Field("three", o.three), true))
      && First(below, InOrder("four")) == Some(Loc(Field("four", o.four), true))
  {
    SlotFound(q, "one", q.correctOrder.one);
    SlotFound(q, "two", q.correctOrder.two);
    SlotFound(q, "three", q.correctOrder.three);
    SlotFound(q, "four", q.correctOrder.four);
  }

  /** What the import reads from an exported fastest element. */
  lemma FastestReadBack(q: FastestFinger, id: Id)
    ensures FastestOf(Loc(FastestElement(q), false), id) ==
      if q.text != "" && q.answers.a != "" && q.answers.b != "" && q.answers.c != "" && q.answers.d != ""
      then Some(FastestFinger(id, q.text, q.answers, Defaulted(q.correctOrder), false, q.difficulty))
      else None
  {
    var o := q.correctOrder;
    WalkFastest(q);
    FastestOptionsFound(q);
    FastestSlotsFound(q);
    FieldText("text", q.text, "", false);
    FieldText("a", q.answers.a, "", false);
    FieldText("b", q.answers.b, "", false);
    FieldText("c", q.answers.c, "", false);
    FieldText("d", q.answers.d, "", false);
    FieldText("one", o.one, "a", true);
    FieldText("two", o.two, "b", true);
    FieldText("three", o.three, "c", true);
    FieldText("four", o.four, "d", true);
    DifficultyOfDecimal(q.difficulty);
  }

  lemma QuestionFieldFound(q: Regular, name: string, v: string)
    requires (name == "category" && v == q.category) || (name == "text" && v == q.text)
    ensures First(QuestionBelow(q), Tag(name)) == Some(Loc(Field(name, v), false))
  {
    FirstSix(Loc(Field("category", q.category), false), Loc(Field("text", q.text), false),
      Loc(AnswerElement("a", q.answers.a), false), Loc(AnswerElement("b", q.answers.b), false),
      Loc(AnswerElement("c", q.answers.c), false), Loc(AnswerElement("d", q.answers.d), false), Tag(name));
  }

  lemma AnswerFound(q: Regular, k: Letter)
    ensures First(QuestionBelow(q), Tag(k.Name())) == Some(Loc(AnswerElement(k.Name(), q.answers.Get(k)), false))
  {
    FirstSix(Loc(Field("category", q.category), false), Loc(Field("text", q.text), false),
      Loc(AnswerElement("a", q.answers.a), false), Loc(AnswerElement("b", q.answers.b), false),
      Loc(AnswerElement("c", q.answers.c), false), Loc(AnswerElement("d", q.answers.d), false), Tag(k.Name()));
  }

  /** An exported answer reads back as itself: its text, and `correct` is "yes" exactly when it was correct. */
  lemma AnswerReadBack(q: Regular, k: Letter)
    ensures AnswerOf(Loc(QuestionElement(q), false), k.Name()) == q.answers.Get(k)
  {
    var ans := q.answers.Get(k);
    WalkQuestion(q);
    AnswerFound(q, k);
    var e := AnswerElement(k.Name(), ans);
    LeafText(k.Name(), e.attrs, ans.text);
    assert GetAttribute(e, "correct") == Some(YesNo(ans.correct)) by {
      assert e.attrs[1..] == [];
    }
  }

  lemma QuestionTextReadBack(q: Regular)
    ensures QuestionText(Loc(QuestionElement(q), false)) == Trim(q.text)
    ensures var found := First(Below(Loc(QuestionElement(q), false)), Tag("category"));
      found.Some? && TextContent(found.value.node) == q.category
  {
    WalkQuestion(q);
    QuestionFieldFound(q, "category", q.category);
    QuestionFieldFound(q, "text", q.text);
    FieldText("category", q.category, "", false);
    FieldText("text", q.text, "", false);
  }

  /** What the import reads from an exported question element. */
  lemma RegularReadBack(q: Regular, id: Id)
    ensures QuestionKept(Loc(QuestionElement(q), false)) <==> Trim(q.text) != ""
    ensures RegularOf(Loc(QuestionElement(q), false), id) == Regular(id, Trim(q.category), Trim(q.text), q.answers, false, None)
  {
    QuestionTextReadBack(q);
    AnswerReadBack(q, A);
    AnswerReadBack(q, B);
    AnswerReadBack(q, C);
    AnswerReadBack(q, D);
  }

  // ----- the whole document --------------------------------------------------------

  lemma {:induction false} WalkRootChildren(es: seq<Node>, u: bool)
    ensures Walk(RootChildren(es), u) == Walk(es, u)
  {
    if es == [] {
      assert [Text("\n")][1..] == [];
    } else {
      var init, e := es[..|es| - 1], es[|es| - 1];
      WalkRootChildren(init, u);
      WalkAppend(RootChildren(init), [Text("\t"), e, Text("\n")], u);
      assert [Text("\t"), e, Text("\n")][1..] == [e] + [Text("\n")];
      WalkAppend([e], [Text("\n")], u);
      assert [Text("\n")][1..] == [];
      assert es == init + [e];
      WalkAppend(init, [e], u);
    }
  }

  lemma AllEmpty(ls: seq<Located>, sel: Selector)
    requires forall x :: x in ls ==> !Matches(x, sel)
    ensures All(ls, sel) == []
  {
  }

  lemma AllSingle(x: Located, sel: Selector)
    ensures All([x], sel) == if Matches(x, sel) then [x] else []
  {
    assert [x][..0] == [];
  }

  /** A question element holds no other `question` element and no `fastest` element. */
  lemma QuestionSubtree(q: Regular)
    ensures All(Walk([QuestionElement(q)], false), Tag("question")) == [Loc(QuestionElement(q), false)]
    ensures First(Walk([QuestionElement(q)], false), Tag("fastest")) == None
  {
    QuestionSubtreeQuestions(q);
    QuestionSubtreeNoFastest(q);
  }

  lemma QuestionSubtreeQuestions(q: Regular)
    ensures All(Walk([QuestionElement(q)], false), Tag("question")) == [Loc(QuestionElement(q), false)]
  {
    var x := Loc(QuestionElement(q), false);
    WalkQuestion(q);
    AllAppend([x], QuestionBelow(q), Tag("question"));
    AllSingle(x, Tag("question"));
    AllEmpty(QuestionBelow(q), Tag("question"));
  }

  lemma QuestionSubtreeNoFastest(q: Regular)
    ensures First(Walk([QuestionElement(q)], false), Tag("fastest")) == None
  {
    var x := Loc(QuestionElement(q), false);
    var x1, x2 := Loc(Field("category", q.category), false), Loc(Field("text", q.text), false);
    var x3, x4 := Loc(AnswerElement("a", q.answers.a), false), Loc(AnswerElement("b", q.answers.b), false);
    var x5, x6 := Loc(AnswerElement("c", q.answers.c), false), Loc(AnswerElement("d", q.answers.d), false);
    WalkQuestion(q);
    FirstCons(x, QuestionBelow(q), Tag("fastest"));
    FirstSix(x1, x2, x3, x4, x5, x6, Tag("fastest"));
  }

  /** The `question` elements of the exported tree: one per question, in order. */
  function QuestionLocs(qs: seq<Regular>): (r: seq<Located>)
    ensures |r| == |qs|
  {
    seq(|qs|, k requires 0 <= k < |qs| => Loc(QuestionElement(qs[k]), false))
  }

  lemma {:induction false} QuestionsSubtrees(qs: seq<Regular>)
    ensures All(Walk(QuestionElements(qs), false), Tag("question")) == QuestionLocs(qs)
    ensures First(Walk(QuestionElements(qs), false), Tag("fastest")) == None
  {
    if qs != [] {
      var init, q := qs[..|qs| - 1], qs[|qs| - 1];
      QuestionsSubtrees(init);
      assert qs == init + [q];
      QuestionElementsSnoc(init, q);
      WalkAppend(QuestionElements(init), [QuestionElement(q)], false);
      AllAppend(Walk(QuestionElements(init), false), Walk([QuestionElement(q)], false), Tag("question"));
      FirstAppend(Walk(QuestionElements(init), false), Walk([QuestionElement(q)], false), Tag("fastest"));
      QuestionSubtree(q);
      QuestionLocsSnoc(init, q);
    }
  }

  lemma QuestionElementsSnoc(init: seq<Regular>, q: Regular)
    ensures QuestionElements(init + [q]) == QuestionElements(init) + [QuestionElement(q)]
  {
    var qs := init + [q];
    assert forall k :: 0 <= k < |init| ==> qs[k] == init[k];
  }

  lemma DocumentOfExport(ff: Option<FastestFinger>, qs: seq<Regular>)
    ensures DocumentElements(ExportTree(ff, qs)) == [Loc(ExportTree(ff, qs), false)] + Walk(TopElements(ff, qs), false)
  {
    WalkOne(ExportTree(ff, qs), false);
    assert "questions" != OrderTag;
    WalkRootChildren(TopElements(ff, qs), false);
  }

  lemma WalkTop(ff: Option<FastestFinger>, qs: seq<Regular>)
    ensures Walk(TopElements(ff, qs), false) ==
      (if ff.Some? then [Loc(FastestElement(ff.value), false)] + FastestBelow(ff.value) else [])
      + Walk(QuestionElements(qs), false)
  {
    var first := if ff.Some? then [FastestElement(ff.value)] else [];
    WalkAppend(first, QuestionElements(qs), false);
    if ff.Some? {
      WalkFastest(ff.value);
    } else {
      assert first == [];
    }
  }

  /** The elements of the exported document: the root, the fastest subtree if any, then the question subtrees. */
  lemma ExportedElements(ff: Option<FastestFinger>, qs: seq<Regular>)
    ensures DocumentElements(ExportTree(ff, qs)) ==
      [Loc(ExportTree(ff, qs), false)]
      + ((if ff.Some? then [Loc(FastestElement(ff.value), false)] + FastestBelow(ff.value) else [])
         + Walk(QuestionElements(qs), false))
  {
    DocumentOfExport(ff, qs);
    WalkTop(ff, qs);
  }

  lemma ExportedFastestNode(ff: Option<FastestFinger>, qs: seq<Regular>)
    ensures FastestNode(ExportTree(ff, qs)) == if ff.Some? then Some(Loc(FastestElement(ff.value), false)) else None
  {
    var root := Loc(ExportTree(ff, qs), false);
    var mid := if ff.Some? then [Loc(FastestElement(ff.value), false)] + FastestBelow(ff.value) else [];
    var rest := Walk(QuestionElements(qs), false);
    ExportedElements(ff, qs);
    FirstCons(root, mid + rest, Tag("fastest"));
    FirstAppend(mid, rest, Tag("fastest"));
    QuestionsSubtrees(qs);
    if ff.Some? {
      FirstCons(Loc(FastestElement(ff.value), false), FastestBelow(ff.value), Tag("fastest"));
    }
  }

  /** The fastest subtree holds no `question` element. */
  lemma FastestSubtreeNoQuestion(q: FastestFinger)
    ensures All([Loc(FastestElement(q), false)] + FastestBelow(q), Tag("question")) == []
  {
    AllEmpty([Loc(FastestElement(q), false)] + FastestBelow(q), Tag("question"));
  }

  lemma ExportedQuestionNodes(ff: Option<FastestFinger>, qs: seq<Regular>)
    ensures QuestionNodes(ExportTree(ff, qs)) == QuestionLocs(qs)
  {
    var root := Loc(ExportTree(ff, qs), false);
    var mid := if ff.Some? then [Loc(FastestElement(ff.value), false)] + FastestBelow(ff.value) else [];
    var rest := Walk(QuestionElements(qs), false);
    ExportedElements(ff, qs);
    AllAppend([root], mid + rest, Tag("question"));
    AllAppend(mid, rest, Tag("question"));
    AllSingle(root, Tag("question"));
    if ff.Some? {
      FastestSubtreeNoQuestion(ff.value);
    } else {
      assert All(mid, Tag("question")) == [];
    }
    QuestionsSubtrees(qs);
  }

  // ----- the round trip ------------------------------------------------------------

  /** The record the import makes of an exported regular question. */
  function Reread(q: Regular, id: Id): Regular {
    Regular(id, Trim(q.category), Trim(q.text), q.answers, false, None)
  }

  /** The ordering record the import makes of an exported one, if it keeps it. */
  function RereadFastest(q: FastestFinger, id: Id): Option<FastestFinger> {
    if q.text != "" && q.answers.a != "" && q.answers.b != "" && q.answers.c != "" && q.answers.d != ""
    then Some(FastestFinger(id, q.text, q.answers, Defaulted(q.correctOrder), false, q.difficulty))
    else None
  }

  /** A regular question survives the round trip when its trimmed text is non-empty. */
  predicate Survives(q: Regular) {
    Trim(q.text) != ""
  }

  function RereadBuilder(uuid: IdSource, first: nat): (Regular, nat) -> Regular {
    (q: Regular, k: nat) => Reread(q, uuid(first + k))
  }

  lemma RereadBuilderApply(q: Regular, uuid: IdSource, first: nat, k: nat)
    ensures RereadBuilder(uuid, first)(q, k) == Reread(q, uuid(first + k))
  {
  }

  /** The regular records the import makes of exported questions; ids continue from `first`. */
  function RereadAll(qs: seq<Regular>, uuid: IdSource, first: nat): seq<Regular> {
    KeepAndBuild(qs, Survives, RereadBuilder(uuid, first))
  }

  lemma StepReadBack(q: Regular, uuid: IdSource, first: nat, n: nat)
    ensures var x := Loc(QuestionElement(q), false);
      (if QuestionKept(x) then [Builder(uuid, first)(x, n)] else [])
      == (if Survives(q) then [RereadBuilder(uuid, first)(q, n)] else [])
  {
    var x := Loc(QuestionElement(q), false);
    var id := uuid(first + n);
    assert Builder(uuid, first)(x, n) == Reread(q, id) by {
      BuilderApply(x, uuid, first, n);
      RegularReadBack(q, id);
    }
    assert RereadBuilder(uuid, first)(q, n) == Reread(q, id);
    assert QuestionKept(x) <==> Survives(q) by {
      RegularReadBack(q, id);
    }
  }

  lemma {:induction false} QuestionsReadBack(qs: seq<Regular>, uuid: IdSource, first: nat)
    ensures QuestionsFrom(QuestionLocs(qs), uuid, first) == RereadAll(qs, uuid, first)
  {
    if qs != [] {
      var init, q := qs[..|qs| - 1], qs[|qs| - 1];
      var x := Loc(QuestionElement(q), false);
      assert qs == init + [q];
      QuestionLocsSnoc(init, q);
      QuestionsReadBack(init, uuid, first);
      KeepAndBuildSnoc(QuestionLocs(init), x, QuestionKept, Builder(uuid, first));
      KeepAndBuildSnoc(init, q, Survives, RereadBuilder(uuid, first));
      StepReadBack(q, uuid, first, |RereadAll(init, uuid, first)|);
    }
  }

  lemma QuestionLocsSnoc(init: seq<Regular>, q: Regular)
    ensures QuestionLocs(init + [q]) == QuestionLocs(init) + [Loc(QuestionElement(q), false)]
  {
    var qs := init + [q];
    assert forall k :: 0 <= k < |init| ==> qs[k] == init[k];
  }

  /**
   * Import after export: `parseXML` over the tree `generateXML`'s text spells
   * out gives the ordering question back if its text and options are
   * non-empty (now unselected, with the first id and empty order slots
   * defaulted), and one record per regular question with non-blank text,
   * in order, trimmed, unselected and without difficulty, with the next ids.
   */
  lemma ImportAfterExport(ff: Option<FastestFinger>, qs: seq<Regular>, uuid: IdSource)
    ensures var r := ParseResult(ExportTree(ff, qs), uuid);
      && r.fastest == (if ff.Some? then RereadFastest(ff.value, uuid(0)) else None)
      && r.regular == RereadAll(qs, uuid, if r.fastest.Some? then 1 else 0)
  {
    ExportedFastestNode(ff, qs);
    ExportedQuestionNodes(ff, qs);
    if ff.Some? {
      FastestReadBack(ff.value, uuid(0));
    }
    var r := ParseResult(ExportTree(ff, qs), uuid);
    QuestionsReadBack(qs, uuid, if r.fastest.Some? then 1 else 0);
  }

  /** The regular records that come back: one per question with non-blank text, the k-th with id `uuid(first + k)`. */
  lemma RereadAllIsFilter(qs: seq<Regular>, uuid: IdSource, first: nat)
    ensures |RereadAll(qs, uuid, first)| == Count(qs, Survives)
    ensures forall k :: 0 <= k < Count(qs, Survives) ==>
              RereadAll(qs, uuid, first)[k] == Reread(Filter(qs, Survives)[k], uuid(first + k))
  {
    var r := RereadAll(qs, uuid, first);
    var kept := Filter(qs, Survives);
    KeepAndBuildIsFilterThenBuild(qs, Survives, RereadBuilder(uuid, first));
    forall k | 0 <= k < |kept|
      ensures r[k] == Reread(kept[k], uuid(first + k))
    {
      assert r[k] == RereadBuilder(uuid, first)(kept[k], k);
      RereadBuilderApply(kept[k], uuid, first, k);
    }
  }

  /** Trimmed questions with non-empty text all survive, changed only in id, selection and difficulty. */
  lemma RereadAllOfTrimmed(qs: seq<Regular>, uuid: IdSource, first: nat)
    requires forall k :: 0 <= k < |qs| ==> qs[k].text != "" && IsTrimmed(qs[k].text) && IsTrimmed(qs[k].category)
    ensures |RereadAll(qs, uuid, first)| == |qs|
    ensures forall k :: 0 <= k < |qs| ==>
              RereadAll(qs, uuid, first)[k] == qs[k].(id := uuid(first + k), selected := false, difficulty := None)
  {
    forall k | 0 <= k < |qs|
      ensures Survives(qs[k]) && Reread(qs[k], uuid(first + k)) == qs[k].(id := uuid(first + k), selected := false, difficulty := None)
    {
      TrimOfTrimmed(qs[k].text);
      TrimOfTrimmed(qs[k].category);
    }
    FilterAllOrNone(qs, Survives);
    RereadAllIsFilter(qs, uuid, first);
  }

  /**
   * Regular questions whose text is non-empty and already trimmed, and whose
   * category is trimmed, all come back in order, changed only in id,
   * selection and difficulty.
   */
  lemma ImportAfterExportOfTrimmed(ff: Option<FastestFinger>, qs: seq<Regular>, uuid: IdSource)
    requires forall k :: 0 <= k < |qs| ==> qs[k].text != "" && IsTrimmed(qs[k].text) && IsTrimmed(qs[k].category)
    ensures var r := ParseResult(ExportTree(ff, qs), uuid);
      var first := if r.fastest.Some? then 1 else 0;
      && |r.regular| == |qs|
      && forall k :: 0 <= k < |qs| ==> r.regular[k] == qs[k].(id := uuid(first + k), selected := false, difficulty := None)
  {
    var r := ParseResult(ExportTree(ff, qs), uuid);
    var first := if r.fastest.Some? then 1 else 0;
    ImportAfterExport(ff, qs, uuid);
    TrimmedReread(r.regular, qs, uuid, first);
  }

  lemma TrimmedReread(regular: seq<Regular>, qs: seq<Regular>, uuid: IdSource, first: nat)
    requires forall k :: 0 <= k < |qs| ==> qs[k].text != "" && IsTrimmed(qs[k].text) && IsTrimmed(qs[k].category)
    requires regular == RereadAll(qs, uuid, first)
    ensures |regular| == |qs|
    ensures forall k :: 0 <= k < |qs| ==> regular[k] == qs[k].(id := uuid(first + k), selected := false, difficulty := None)
  {
    RereadAllOfTrimmed(qs, uuid, first);
  }

  /**
   * An ordering question with non-empty text, options and order slots comes
   * back whole, unselected and with the first id; the slots are taken as
   * they are, whatever letters they hold.
   */
  lemma FastestAfterExport(q: FastestFinger, qs: seq<Regular>, uuid: IdSource)
    requires q.text != "" && q.answers.a != "" && q.answers.b != "" && q.answers.c != "" && q.answers.d != ""
    requires q.correctOrder.one != "" && q.correctOrder.two != "" && q.correctOrder.three != "" && q.correctOrder.four != ""
    ensures ParseResult(ExportTree(Some(q), qs), uuid).fastest == Some(q.(id := uuid(0), selected := false))
  {
    ImportAfterExport(Some(q), qs, uuid);
  }
}
