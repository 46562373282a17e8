/**
 * `generateXML`: the XML document text for an optional ordering question and
 * the regular questions. Field text goes in as it is, with nothing escaped.
 * `ExportTree` is the element tree that text spells out; the import reads
 * that tree back.
 */
module XmlExport {
  import opened Wrappers
  import opened JsString
  import opened Question
  import opened Seqs
  import opened XmlTree
  import opened XmlImport

  const Declaration := "<?xml version=\"1.0\" encoding=\"UTF-8\"?>\n"

  /** The text the export starts from: the declaration and the opening root tag. */
  const Opening := "<?xml version=\"1.0\" encoding=\"UTF-8\"?>\n<questions>\n"

  /** `a.correct ? 'yes' : 'no'` */
  function YesNo(b: bool): (r: string)
    ensures r == "yes" <==> b
  {
    if b then "yes" else "no"
  }

  // ----- the text ----------------------------------------------------------------

  /** `xml` followed by the lines written for the ordering question; `${difficulty || 0}` of an integer is its decimal form. */
  function WithFastest(xml: string, q: FastestFinger): string {
    xml + "\t<fastest difficulty=\"" + IntToDecimal(q.difficulty) + "\">\n"
    + "\t\t<text>" + q.text + "</text>\n"
    + "\t\t<a>" + q.answers.a + "</a>\n"
    + "\t\t<b>" + q.answers.b + "</b>\n"
    + "\t\t<c>" + q.answers.c + "</c>\n"
    + "\t\t<d>" + q.answers.d + "</d>\n"
    + "\t\t<correctOrder>\n"
    + "\t\t\t<one>" + q.correctOrder.one + "</one>\n"
    + "\t\t\t<two>" + q.correctOrder.two + "</two>\n"
    + "\t\t\t<three>" + q.correctOrder.three + "</three>\n"
    + "\t\t\t<four>" + q.correctOrder.four + "</four>\n"
    + "\t\t</correctOrder>\n"
    + "\t</fastest>\n"
  }

  /** `xml` followed by the lines written for one regular question. */
  function WithQuestion(xml: string, q: Regular): string {
    xml + "\t<question>\n"
    + "\t\t<category>" + q.category + "</category>\n"
    + "\t\t<text>" + q.text + "</text>\n"
    + "\t\t<a correct=\"" + YesNo(q.answers.a.correct) + "\">" + q.answers.a.text + "</a>\n"
    + "\t\t<b correct=\"" + YesNo(q.answers.b.correct) + "\">" + q.answers.b.text + "</b>\n"
    + "\t\t<c correct=\"" + YesNo(q.answers.c.correct) + "\">" + q.answers.c.text + "</c>\n"
    + "\t\t<d correct=\"" + YesNo(q.answers.d.correct) + "\">" + q.answers.d.text + "</d>\n"
    + "\t</question>\n"
  }

  /** `xml` followed by the blocks of the `forEach`, in list order. */
  function WithQuestions(xml: string, qs: seq<Regular>): string {
    if qs == [] then xml else WithQuestion(WithQuestions(xml, qs[..|qs| - 1]), qs[|qs| - 1])
  }

  /** The whole text `generateXML` returns. */
  function XmlText(ff: Option<FastestFinger>, qs: seq<Regular>): string {
    var head := if ff.Some? then WithFastest(Opening, ff.value) else Opening;
    WithQuestions(head, qs) + "</questions>"
  }

  /** `generateXML`, growing the text piece by piece. */
  method GenerateXml(fastestFingerQuestion: Option<FastestFinger>, regularQuestions: seq<Regular>) returns (xml: string)
    ensures xml == XmlText(fastestFingerQuestion, regularQuestions)
  {
    xml := Opening;
    if fastestFingerQuestion.Some? {
      xml := AppendFastest(xml, fastestFingerQuestion.value);
    }
    ghost var head := xml;
    var i := 0;
    while i < |regularQuestions|
      invariant i <= |regularQuestions|
      invariant xml == WithQuestions(head, regularQuestions[..i])
    {
      WithQuestionsPrefix(head, regularQuestions, i);
      xml := AppendQuestion(xml, regularQuestions[i]);
      i := i + 1;
    }
    assert regularQuestions[..i] == regularQuestions;
    xml := xml + "</questions>";
  }

  /** One more question of the list adds its block after the blocks of those before it. */
  lemma WithQuestionsPrefix(xml: string, qs: seq<Regular>, k: nat)
    requires k < |qs|
    ensures WithQuestions(xml, qs[..k + 1]) == WithQuestion(WithQuestions(xml, qs[..k]), qs[k])
  {
    assert qs[..k + 1][..k] == qs[..k];
  }

  /** The lines of the `if (fastestFingerQuestion)` block, one `+=` at a time. */
  method AppendFastest(xml0: string, q: FastestFinger) returns (xml: string)
    ensures xml == WithFastest(xml0, q)
  {
    xml := xml0 + "\t<fastest difficulty=\"" + IntToDecimal(q.difficulty) + "\">\n";
    xml := xml + "\t\t<text>" + q.text + "</text>\n";
    xml := xml + "\t\t<a>" + q.answers.a + "</a>\n";
    xml := xml + "\t\t<b>" + q.answers.b + "</b>\n";
    xml := xml + "\t\t<c>" + q.answers.c + "</c>\n";
    xml := xml + "\t\t<d>" + q.answers.d + "</d>\n";
    xml := xml + "\t\t<correctOrder>\n";
    xml := xml + "\t\t\t<one>" + q.correctOrder.one + "</one>\n";
    xml := xml + "\t\t\t<two>" + q.correctOrder.two + "</two>\n";
    xml := xml + "\t\t\t<three>" + q.correctOrder.three + "</three>\n";
    xml := xml + "\t\t\t<four>" + q.correctOrder.four + "</four>\n";
    xml := xml + "\t\t</correctOrder>\n";
    xml := xml + "\t</fastest>\n";
  }

  /** The lines the `forEach` writes for one regular question, one `+=` at a time. */
  method AppendQuestion(xml0: string, question: Regular) returns (xml: string)
    ensures xml == WithQuestion(xml0, question)
  {
    xml := xml0 + "\t<question>\n";
    xml := xml + "\t\t<category>" + question.category + "</category>\n";
    xml := xml + "\t\t<text>" + question.text + "</text>\n";
    xml := xml + "\t\t<a correct=\"" + YesNo(question.answers.a.correct) + "\">" + question.answers.a.text + "</a>\n";
    xml := xml + "\t\t<b correct=\"" + YesNo(question.answers.b.correct) + "\">" + question.answers.b.text + "</b>\n";
    xml := xml + "\t\t<c correct=\"" + YesNo(question.answers.c.correct) + "\">" + question.answers.c.text + "</c>\n";
    xml := xml + "\t\t<d correct=\"" + YesNo(question.answers.d.correct) + "\">" + question.answers.d.text + "</d>\n";
    xml := xml + "\t</question>\n";
  }

  // ----- the tree the text spells out ----------------------------------------------

  /** An element holding only text: `<tag>t</tag>`. */
  function Field(tag: string, t: string): Node {
    Element(tag, [], [Text(t)])
  }

  /** `<tag correct="yes|no">text</tag>` */
  function AnswerElement(tag: string, ans: Answer): Node {
    Element(tag, [Attr("correct", YesNo(ans.correct))], [Text(ans.text)])
  }

  /** Elements one per line: a line break and `indent` before each. */
  function Indented(indent: string, es: seq<Node>): seq<Node> {
    if es == [] then [] else Indented(indent, es[..|es| - 1]) + [Text("\n" + indent), es[|es| - 1]]
  }

  /** An element whose children sit one per line at `inner`, with its end tag on a line of its own at `outer`. */
  function Nest(tag: string, attrs: seq<Attr>, inner: string, outer: string, es: seq<Node>): Node {
    Element(tag, attrs, Indented(inner, es) + [Text("\n" + outer)])
  }

  function OrderElement(o: Order): Node {
    Nest(OrderTag, [], "\t\t\t", "\t\t", [Field("one", o.one), Field("two", o.two), Field("three", o.three), Field("four", o.four)])
  }

  function FastestElement(q: FastestFinger): Node {
    Nest("fastest", [Attr("difficulty", IntToDecimal(q.difficulty))], "\t\t", "\t",
      [Field("text", q.text), Field("a", q.answers.a), Field("b", q.answers.b), Field("c", q.answers.c),
       Field("d", q.answers.d), OrderElement(q.correctOrder)])
  }

  function QuestionElement(q: Regular): Node {
    Nest("question", [], "\t\t", "\t",
      [Field("category", q.category), Field("text", q.text),
       AnswerElement("a", q.answers.a), AnswerElement("b", q.answers.b),
       AnswerElement("c", q.answers.c), AnswerElement("d", q.answers.d)])
  }

  function QuestionElements(qs: seq<Regular>): (r: seq<Node>)
    ensures |r| == |qs| && forall k :: 0 <= k < |qs| ==> r[k] == QuestionElement(qs[k])
  {
    seq(|qs|, k requires 0 <= k < |qs| => QuestionElement(qs[k]))
  }

  /** The elements directly under the root, in order. */
  function TopElements(ff: Option<FastestFinger>, qs: seq<Regular>): seq<Node> {
    (if ff.Some? then [FastestElement(ff.value)] else []) + QuestionElements(qs)
  }

  /** The root's children: a line break, then each top element on a line of its own after a tab. */
  function RootChildren(es: seq<Node>): seq<Node> {
    if es == [] then [Text("\n")] else RootChildren(es[..|es| - 1]) + [Text("\t"), es[|es| - 1], Text("\n")]
  }

  /** The `<questions>` root element of the exported document. */
  function ExportTree(ff: Option<FastestFinger>, qs: seq<Regular>): Node {
    Element("questions", [], RootChildren(TopElements(ff, qs)))
  }

  // ----- the text is the tree's markup ---------------------------------------------

  /** `acc` followed by one line per element: `indent`, the element's markup, a line break. */
  function AddLines(acc: string, indent: string, es: seq<Node>): string {
    if es == [] then acc else AddLines(acc, indent, es[..|es| - 1]) + indent + Serialize([es[|es| - 1]]) + "\n"
  }

  lemma SerializeText(t: string)
    ensures Serialize([Text(t)]) == t
  {
    assert [Text(t)][1..] == [];
  }

  lemma SerializeElement(tag: string, attrs: seq<Attr>, children: seq<Node>)
    ensures Serialize([Element(tag, attrs, children)]) == "<" + tag + AttrsText(attrs) + ">" + Serialize(children) + "</" + tag + ">"
  {
    var n := Element(tag, attrs, children);
    assert [n][1..] == [];
    assert Serialize([n][1..]) == "";
  }

  lemma AttrsTextSingle(name: string, v: string)
    ensures AttrsText([Attr(name, v)]) == " " + name + "=\"" + v + "\"" + ""
  {
    assert [Attr(name, v)][1..] == [];
  }

  lemma SerializePair(a: Node, b: Node)
    ensures Serialize([a, b]) == Serialize([a]) + Serialize([b])
  {
    assert [a, b] == [a] + [b];
    SerializeAppend([a], [b]);
  }

  lemma RegroupLine(acc: string, si: string, indent: string, s: string)
    ensures acc + si + "\n" + indent + s + "\n" == acc + (si + ("\n" + indent + s)) + "\n"
  {
  }

  /** The lines of `AddLines` after a line break are the indented elements' markup and a line break. */
  lemma {:induction false} IndentedMarkup(acc: string, indent: string, es: seq<Node>)
    ensures AddLines(acc + "\n", indent, es) == acc + Serialize(Indented(indent, es)) + "\n"
  {
    if es == [] {
      assert Serialize([]) == "";
      assert acc + "" == acc;
    } else {
      var init, e := es[..|es| - 1], es[|es| - 1];
      IndentedMarkup(acc, indent, init);
      SerializeAppend(Indented(indent, init), [Text("\n" + indent), e]);
      SerializePair(Text("\n" + indent), e);
      SerializeText("\n" + indent);
      RegroupLine(acc, Serialize(Indented(indent, init)), indent, Serialize([e]));
    }
  }

  lemma RegroupNest(acc: string, outer: string, tag: string, at: string, si: string)
    ensures acc + outer + "<" + tag + at + ">" + si + "\n" + outer + "</" + tag + ">" + "\n"
         == acc + outer + ("<" + tag + at + ">" + (si + ("\n" + outer)) + "</" + tag + ">") + "\n"
  {
  }

  /** The text of a nested element: start tag, lines at `inner`, end tag on a line at `outer`. */
  lemma NestMarkup(acc: string, tag: string, attrs: seq<Attr>, inner: string, outer: string, es: seq<Node>)
    ensures AddLines(acc + outer + "<" + tag + AttrsText(attrs) + ">" + "\n", inner, es) + outer + "</" + tag + ">" + "\n"
         == acc + outer + Serialize([Nest(tag, attrs, inner, outer, es)]) + "\n"
  {
    var head := acc + outer + "<" + tag + AttrsText(attrs) + ">";
    var body := Indented(inner, es);
    IndentedMarkup(head, inner, es);
    SerializeAppend(body, [Text("\n" + outer)]);
    SerializeText("\n" + outer);
    SerializeElement(tag, attrs, body + [Text("\n" + outer)]);
    RegroupNest(acc, outer, tag, AttrsText(attrs), Serialize(body));
  }

  lemma AddLinesFour(acc: string, indent: string, e1: Node, e2: Node, e3: Node, e4: Node)
    ensures AddLines(acc, indent, [e1, e2, e3, e4]) ==
      acc + indent + Serialize([e1]) + "\n" + indent + Serialize([e2]) + "\n"
      + indent + Serialize([e3]) + "\n" + indent + Serialize([e4]) + "\n"
  {
    AddLinesSnoc(acc, indent, [], e1);
    AddLinesSnoc(acc, indent, [e1], e2);
    AddLinesSnoc(acc, indent, [e1, e2], e3);
    AddLinesSnoc(acc, indent, [e1, e2, e3], e4);
    assert [] + [e1] == [e1] && [e1] + [e2] == [e1, e2];
    assert [e1, e2] + [e3] == [e1, e2, e3] && [e1, e2, e3] + [e4] == [e1, e2, e3, e4];
  }

  lemma AddLinesSnoc(acc: string, indent: string, es: seq<Node>, e: Node)
    ensures AddLines(acc, indent, es + [e]) == AddLines(acc, indent, es) + indent + Serialize([e]) + "\n"
  {
    assert (es + [e])[..|es|] == es;
  }

  lemma AddLinesSix(acc: string, indent: string, e1: Node, e2: Node, e3: Node, e4: Node, e5: Node, e6: Node)
    ensures AddLines(acc, indent, [e1, e2, e3, e4, e5, e6]) ==
      AddLines(acc, indent, [e1, e2, e3, e4]) + indent + Serialize([e5]) + "\n" + indent + Serialize([e6]) + "\n"
  {
    var es := [e1, e2, e3, e4, e5, e6];
    assert es[..5] == [e1, e2, e3, e4, e5] && es[..5][..4] == [e1, e2, e3, e4];
  }

  lemma RegroupField(acc: string, indent: string, tag: string, v: string)
    ensures acc + (indent + "<" + tag + ">") + v + ("</" + tag + ">" + "\n")
         == acc + indent + ("<" + tag + "" + ">" + v + "</" + tag + ">") + "\n"
  {
  }

  /** A text line `start + v + stop` is one field element on its own line. */
  lemma FieldLine(acc: string, indent: string, start: string, tag: string, stop: string, v: string)
    requires start == indent + "<" + tag + ">" && stop == "</" + tag + ">" + "\n"
    ensures acc + start + v + stop == acc + indent + Serialize([Field(tag, v)]) + "\n"
  {
    SerializeElement(tag, [], [Text(v)]);
    SerializeText(v);
    assert AttrsText([]) == "";
    RegroupField(acc, indent, tag, v);
  }

  lemma RegroupAnswer(acc: string, tag: string, mark: string, t: string)
    ensures acc + ("\t\t" + "<" + tag + " correct=\"") + mark + "\">" + t + ("</" + tag + ">" + "\n")
         == acc + "\t\t" + ("<" + tag + (" " + "correct" + "=\"" + mark + "\"" + "") + ">" + t + "</" + tag + ">") + "\n"
  {
    assert " correct=\"" == " " + "correct" + "=\"";
    assert "\">" == "\"" + ">";
  }

  /** A text line with a `correct` mark is one answer element on its own line. */
  lemma AnswerLine(acc: string, start: string, tag: string, stop: string, ans: Answer)
    requires start == "\t\t" + "<" + tag + " correct=\"" && stop == "</" + tag + ">" + "\n"
    ensures acc + start + YesNo(ans.correct) + "\">" + ans.text + stop
         == acc + "\t\t" + Serialize([AnswerElement(tag, ans)]) + "\n"
  {
    var attrs := [Attr("correct", YesNo(ans.correct))];
    AttrsTextSingle("correct", YesNo(ans.correct));
    SerializeElement(tag, attrs, [Text(ans.text)]);
    SerializeText(ans.text);
    RegroupAnswer(acc, tag, YesNo(ans.correct), ans.text);
  }

  lemma OrderTagLines()
    ensures "\t\t<correctOrder>\n" == "\t\t" + "<" + OrderTag + "" + ">" + "\n"
    ensures "\t\t</correctOrder>\n" == "\t\t" + "</" + OrderTag + ">" + "\n"
  {
  }

  /** The six lines of `correctOrder` are the order element on its own line. */
  lemma OrderMarkup(acc: string, o: Order)
    ensures acc + "\t\t<correctOrder>\n"
      + "\t\t\t<one>" + o.one + "</one>\n" + "\t\t\t<two>" + o.two + "</two>\n"
      + "\t\t\t<three>" + o.three + "</three>\n" + "\t\t\t<four>" + o.four + "</four>\n"
      + "\t\t</correctOrder>\n"
      == acc + "\t\t" + Serialize([OrderElement(o)]) + "\n"
  {
    OrderTagLines();
    OrderFieldTags();
    assert AttrsText([]) == "";
    var head := acc + "\t\t" + "<" + OrderTag + AttrsText([]) + ">" + "\n";
    assert acc + "\t\t<correctOrder>\n" == head;
    var f1, f2, f3, f4 := Field("one", o.one), Field("two", o.two), Field("three", o.three), Field("four", o.four);
    FieldLine(head, "\t\t\t", "\t\t\t<one>", "one", "</one>\n", o.one);
    var a1 := head + "\t\t\t" + Serialize([f1]) + "\n";
    FieldLine(a1, "\t\t\t", "\t\t\t<two>", "two", "</two>\n", o.two);
    var a2 := a1 + "\t\t\t" + Serialize([f2]) + "\n";
    FieldLine(a2, "\t\t\t", "\t\t\t<three>", "three", "</three>\n", o.three);
    var a3 := a2 + "\t\t\t" + Serialize([f3]) + "\n";
    FieldLine(a3, "\t\t\t", "\t\t\t<four>", "four", "</four>\n", o.four);
    var a4 := a3 + "\t\t\t" + Serialize([f4]) + "\n";
    AddLinesFour(head, "\t\t\t", f1, f2, f3, f4);
    assert a4 + "\t\t</correctOrder>\n" == a4 + "\t\t" + "</" + OrderTag + ">" + "\n";
    NestMarkup(acc, OrderTag, [], "\t\t\t", "\t\t", [f1, f2, f3, f4]);
  }

  lemma FastestTagLines(acc: string, d: string, at: string)
    requires at == " " + "difficulty" + "=\"" + d + "\"" + ""
    ensures acc + "\t<fastest difficulty=\"" + d + "\">\n" == acc + "\t" + "<" + "fastest" + at + ">" + "\n"
    ensures "\t</fastest>\n" == "\t" + "</" + "fastest" + ">" + "\n"
  {
    assert "\t<fastest difficulty=\"" == "\t" + "<" + "fastest" + " " + "difficulty" + "=\"";
    assert "\">\n" == "\"" + ">" + "\n";
  }

  /** The lines written for the ordering question are its element on a line of its own. */
  lemma FastestMarkup(acc: string, q: FastestFinger)
    ensures WithFastest(acc, q) == acc + "\t" + Serialize([FastestElement(q)]) + "\n"
  {
    var d := IntToDecimal(q.difficulty);
    var attrs := [Attr("difficulty", d)];
    var fields := [Field("text", q.text), Field("a", q.answers.a), Field("b", q.answers.b), Field("c", q.answers.c),
                   Field("d", q.answers.d), OrderElement(q.correctOrder)];
    AttrsTextSingle("difficulty", d);
    FastestTagLines(acc, d, AttrsText(attrs));
    var open := acc + "\t<fastest difficulty=\"" + d + "\">\n";
    FastestFieldsMarkup(open, q);
    var body := AddLines(open, "\t\t", fields);
    assert WithFastest(acc, q) == body + "\t</fastest>\n";
    CloseLine(body, "\t", "fastest");
    NestMarkup(acc, "fastest", attrs, "\t\t", "\t", fields);
  }

  lemma CloseLine(body: string, indent: string, tag: string)
    ensures body + (indent + "</" + tag + ">" + "\n") == body + indent + "</" + tag + ">" + "\n"
  {
  }

  /** The lines for the ordering question's text, options and order, after its opening tag. */
  lemma FastestFieldsMarkup(head: string, q: FastestFinger)
    ensures head
      + "\t\t<text>" + q.text + "</text>\n"
      + "\t\t<a>" + q.answers.a + "</a>\n"
      + "\t\t<b>" + q.answers.b + "</b>\n"
      + "\t\t<c>" + q.answers.c + "</c>\n"
      + "\t\t<d>" + q.answers.d + "</d>\n"
      + "\t\t<correctOrder>\n"
      + "\t\t\t<one>" + q.correctOrder.one + "</one>\n"
      + "\t\t\t<two>" + q.correctOrder.two + "</two>\n"
      + "\t\t\t<three>" + q.correctOrder.three + "</three>\n"
      + "\t\t\t<four>" + q.correctOrder.four + "</four>\n"
      + "\t\t</correctOrder>\n"
      == AddLines(head, "\t\t",
           [Field("text", q.text), Field("a", q.answers.a), Field("b", q.answers.b), Field("c", q.answers.c),
            Field("d", q.answers.d), OrderElement(q.correctOrder)])
  {
    FastestFieldTags();
    var f1, f2, f3 := Field("text", q.text), Field("a", q.answers.a), Field("b", q.answers.b);
    var f4, f5, f6 := Field("c", q.answers.c), Field("d", q.answers.d), OrderElement(q.correctOrder);
    FieldLine(head, "\t\t", "\t\t<text>", "text", "</text>\n", q.text);
    var a1 := head + "\t\t" + Serialize([f1]) + "\n";
    FieldLine(a1, "\t\t", "\t\t<a>", "a", "</a>\n", q.answers.a);
    var a2 := a1 + "\t\t" + Serialize([f2]) + "\n";
    FieldLine(a2, "\t\t", "\t\t<b>", "b", "</b>\n", q.answers.b);
    var a3 := a2 + "\t\t" + Serialize([f3]) + "\n";
    FieldLine(a3, "\t\t", "\t\t<c>", "c", "</c>\n", q.answers.c);
    var a4 := a3 + "\t\t" + Serialize([f4]) + "\n";
    FieldLine(a4, "\t\t", "\t\t<d>", "d", "</d>\n", q.answers.d);
    var a5 := a4 + "\t\t" + Serialize([f5]) + "\n";
    OrderMarkup(a5, q.correctOrder);
    AddLinesFour(head, "\t\t", f1, f2, f3, f4);
    AddLinesSix(head, "\t\t", f1, f2, f3, f4, f5, f6);
  }

  lemma QuestionTagLines(acc: string, last: string)
    ensures acc + "\t<question>\n" == acc + "\t" + "<" + "question" + "" + ">" + "\n"
    ensures last + "\t</question>\n" == last + "\t" + "</" + "question" + ">" + "\n"
  {
    assert "\t<question>\n" == "\t" + "<" + "question" + "" + ">" + "\n";
    assert "\t</question>\n" == "\t" + "</" + "question" + ">" + "\n";
  }

  /** The lines written for a regular question are its element on a line of its own. */
  lemma QuestionMarkup(acc: string, q: Regular)
    ensures WithQuestion(acc, q) == acc + "\t" + Serialize([QuestionElement(q)]) + "\n"
  {
    QuestionFieldTags();
    assert AttrsText([]) == "";
    var head := acc + "\t" + "<" + "question" + AttrsText([]) + ">" + "\n";
    var f1, f2 := Field("category", q.category), Field("text", q.text);
    var f3, f4 := AnswerElement("a", q.answers.a), AnswerElement("b", q.answers.b);
    var f5, f6 := AnswerElement("c", q.answers.c), AnswerElement("d", q.answers.d);
    FieldLine(head, "\t\t", "\t\t<category>", "category", "</category>\n", q.category);
    var a1 := head + "\t\t" + Serialize([f1]) + "\n";
    FieldLine(a1, "\t\t", "\t\t<text>", "text", "</text>\n", q.text);
    var a2 := a1 + "\t\t" + Serialize([f2]) + "\n";
    AnswerLine(a2, "\t\t<a correct=\"", "a", "</a>\n", q.answers.a);
    var a3 := a2 + "\t\t" + Serialize([f3]) + "\n";
    AnswerLine(a3, "\t\t<b correct=\"", "b", "</b>\n", q.answers.b);
    var a4 := a3 + "\t\t" + Serialize([f4]) + "\n";
    AnswerLine(a4, "\t\t<c correct=\"", "c", "</c>\n", q.answers.c);
    var a5 := a4 + "\t\t" + Serialize([f5]) + "\n";
    AnswerLine(a5, "\t\t<d correct=\"", "d", "</d>\n", q.answers.d);
    var a6 := a5 + "\t\t" + Serialize([f6]) + "\n";
    QuestionTagLines(acc, a6);
    AddLinesFour(head, "\t\t", f1, f2, f3, f4);
    AddLinesSix(head, "\t\t", f1, f2, f3, f4, f5, f6);
    NestMarkup(acc, "question", [], "\t\t", "\t", [f1, f2, f3, f4, f5, f6]);
  }

  lemma FastestFieldTags()
    ensures "\t\t<text>" == "\t\t" + "<" + "text" + ">" && "</text>\n" == "</" + "text" + ">" + "\n"
    ensures "\t\t<a>" == "\t\t" + "<" + "a" + ">" && "</a>\n" == "</" + "a" + ">" + "\n"
    ensures "\t\t<b>" == "\t\t" + "<" + "b" + ">" && "</b>\n" == "</" + "b" + ">" + "\n"
    ensures "\t\t<c>" == "\t\t" + "<" + "c" + ">" && "</c>\n" == "</" + "c" + ">" + "\n"
    ensures "\t\t<d>" == "\t\t" + "<" + "d" + ">" && "</d>\n" == "</" + "d" + ">" + "\n"
  {
  }

  lemma OrderFieldTags()
    ensures "\t\t\t<one>" == "\t\t\t" + "<" + "one" + ">" && "</one>\n" == "</" + "one" + ">" + "\n"
    ensures "\t\t\t<two>" == "\t\t\t" + "<" + "two" + ">" && "</two>\n" == "</" + "two" + ">" + "\n"
    ensures "\t\t\t<three>" == "\t\t\t" + "<" + "three" + ">" && "</three>\n" == "</" + "three" + ">" + "\n"
    ensures "\t\t\t<four>" == "\t\t\t" + "<" + "four" + ">" && "</four>\n" == "</" + "four" + ">" + "\n"
  {
  }

  lemma QuestionFieldTags()
    ensures "\t\t<category>" == "\t\t" + "<" + "category" + ">" && "</category>\n" == "</" + "category" + ">" + "\n"
    ensures "\t\t<text>" == "\t\t" + "<" + "text" + ">" && "</text>\n" == "</" + "text" + ">" + "\n"
    ensures "\t\t<a correct=\"" == "\t\t" + "<" + "a" + " correct=\"" && "</a>\n" == "</" + "a" + ">" + "\n"
    ensures "\t\t<b correct=\"" == "\t\t" + "<" + "b" + " correct=\"" && "</b>\n" == "</" + "b" + ">" + "\n"
    ensures "\t\t<c correct=\"" == "\t\t" + "<" + "c" + " correct=\"" && "</c>\n" == "</" + "c" + ">" + "\n"
    ensures "\t\t<d correct=\"" == "\t\t" + "<" + "d" + " correct=\"" && "</d>\n" == "</" + "d" + ">" + "\n"
  {
  }

  lemma {:induction false} AddLinesAppend(acc: string, indent: string, a: seq<Node>, b: seq<Node>)
    ensures AddLines(AddLines(acc, indent, a), indent, b) == AddLines(acc, indent, a + b)
    decreases |b|
  {
    if b == [] {
      assert a + b == a;
    } else {
      assert (a + b)[..|a + b| - 1] == a + b[..|b| - 1];
      assert (a + b)[|a + b| - 1] == b[|b| - 1];
      AddLinesAppend(acc, indent, a, b[..|b| - 1]);
    }
  }

  /** The blocks of the `forEach` are the question elements, one per line after a tab. */
  lemma {:induction false} QuestionsMarkup(acc: string, qs: seq<Regular>)
    ensures WithQuestions(acc, qs) == AddLines(acc, "\t", QuestionElements(qs))
  {
    if qs != [] {
      var init, q := qs[..|qs| - 1], qs[|qs| - 1];
      var es := QuestionElements(qs);
      QuestionsMarkup(acc, init);
      assert es[..|es| - 1] == QuestionElements(init) && es[|es| - 1] == QuestionElement(q);
      assert AddLines(acc, "\t", es) == AddLines(acc, "\t", QuestionElements(init)) + "\t" + Serialize([QuestionElement(q)]) + "\n";
      QuestionMarkup(WithQuestions(acc, init), q);
    }
  }

  lemma SerializeTriple(a: Node, b: Node, c: Node)
    ensures Serialize([a, b, c]) == Serialize([a]) + Serialize([b]) + Serialize([c])
  {
    assert [a, b, c] == [a, b] + [c];
    SerializeAppend([a, b], [c]);
    SerializePair(a, b);
  }

  lemma RegroupBlock(acc: string, si: string, s: string)
    ensures acc + (si + ("\t" + s + "\n")) == acc + si + "\t" + s + "\n"
  {
  }

  /** The root's children after `acc` are a line break and then one line per top element. */
  lemma {:induction false} RootMarkup(acc: string, es: seq<Node>)
    ensures acc + Serialize(RootChildren(es)) == AddLines(acc + "\n", "\t", es)
  {
    if es == [] {
      SerializeText("\n");
    } else {
      var init, e := es[..|es| - 1], es[|es| - 1];
      RootMarkup(acc, init);
      SerializeAppend(RootChildren(init), [Text("\t"), e, Text("\n")]);
      SerializeTriple(Text("\t"), e, Text("\n"));
      SerializeText("\t");
      SerializeText("\n");
      RegroupBlock(acc, Serialize(RootChildren(init)), Serialize([e]));
    }
  }

  lemma OpeningTags()
    ensures Opening == Declaration + "<" + "questions" + "" + ">" + "\n"
    ensures "</questions>" == "</" + "questions" + ">"
  {
  }

  lemma RegroupRoot(d: string, sr: string)
    ensures d + ("<" + "questions" + "" + ">" + sr + "</" + "questions" + ">") == d + "<" + "questions" + "" + ">" + sr + ("</" + "questions" + ">")
  {
  }

  /**
   * What `generateXML` returns is the opening, then one line per top element
   * (a tab, its markup, a line break), then the closing root tag.
   */
  lemma XmlTextLines(ff: Option<FastestFinger>, qs: seq<Regular>)
    ensures XmlText(ff, qs) == AddLines(Opening, "\t", TopElements(ff, qs)) + "</questions>"
  {
    TopLines(ff, qs);
  }

  lemma TopLines(ff: Option<FastestFinger>, qs: seq<Regular>)
    ensures WithQuestions(if ff.Some? then WithFastest(Opening, ff.value) else Opening, qs)
         == AddLines(Opening, "\t", TopElements(ff, qs))
  {
    var first := if ff.Some? then [FastestElement(ff.value)] else [];
    var head := if ff.Some? then WithFastest(Opening, ff.value) else Opening;
    HeadLines(ff);
    HeadThenQuestions(head, first, qs);
    assert TopElements(ff, qs) == first + QuestionElements(qs);
  }

  lemma HeadThenQuestions(head: string, first: seq<Node>, qs: seq<Regular>)
    requires head == AddLines(Opening, "\t", first)
    ensures WithQuestions(head, qs) == AddLines(Opening, "\t", first + QuestionElements(qs))
  {
    QuestionsMarkup(head, qs);
    AddLinesAppend(Opening, "\t", first, QuestionElements(qs));
  }

  /** The text before the regular questions is the opening and the ordering question's line, if any. */
  lemma HeadLines(ff: Option<FastestFinger>)
    ensures (if ff.Some? then WithFastest(Opening, ff.value) else Opening)
         == AddLines(Opening, "\t", if ff.Some? then [FastestElement(ff.value)] else [])
  {
    if ff.Some? {
      FastestMarkup(Opening, ff.value);
      assert [FastestElement(ff.value)][..0] == [];
    }
  }

  /** What `generateXML` returns is the declaration followed by the markup of `ExportTree`. */
  lemma XmlTextIsExportTree(ff: Option<FastestFinger>, qs: seq<Regular>)
    ensures XmlText(ff, qs) == Declaration + Serialize([ExportTree(ff, qs)])
  {
    var top := TopElements(ff, qs);
    XmlTextLines(ff, qs);
    OpeningTags();
    assert AttrsText([]) == "";
    var open := Declaration + "<" + "questions" + AttrsText([]) + ">";
    RootMarkup(open, top);
    SerializeElement("questions", [], RootChildren(top));
    RegroupRoot(Declaration, Serialize(RootChildren(top)));
  }

  lemma {:induction false} AddLinesExtends(acc: string, indent: string, es: seq<Node>)
    ensures acc <= AddLines(acc, indent, es)
  {
    if es != [] {
      var prev := AddLines(acc, indent, es[..|es| - 1]);
      AddLinesExtends(acc, indent, es[..|es| - 1]);
      assert (prev + indent + Serialize([es[|es| - 1]]) + "\n")[..|acc|] == prev[..|acc|];
    }
  }

  /** The text starts with the declaration and the opening root tag and ends with the closing one. */
  lemma XmlTextFrame(ff: Option<FastestFinger>, qs: seq<Regular>)
    ensures Opening <= XmlText(ff, qs)
    ensures EndsWith(XmlText(ff, qs), "</questions>")
  {
    XmlTextLines(ff, qs);
    AddLinesExtends(Opening, "\t", TopElements(ff, qs));
    ClosedFrame(AddLines(Opening, "\t", TopElements(ff, qs)));
  }

  lemma ClosedFrame(body: string)
    requires Opening <= body
    ensures Opening <= body + "</questions>" && EndsWith(body + "</questions>", "</questions>")
  {
    assert (body + "</questions>")[..|Opening|] == body[..|Opening|];
  }

  predicate IsElement(n: Node) {
    n.Element?
  }

  lemma LineElements(e: Node)
    requires e.Element?
    ensures Filter([Text("\t"), e, Text("\n")], IsElement) == [e]
  {
    var line := [Text("\t"), e, Text("\n")];
    assert line[..2] == [Text("\t"), e];
    assert line[..2][..1] == [Text("\t")];
    assert [Text("\t")][..0] == [];
    assert Filter([Text("\t")], IsElement) == [];
    assert Filter([Text("\t"), e], IsElement) == [e];
  }

  lemma {:induction false} RootChildrenElements(es: seq<Node>)
    requires forall i :: 0 <= i < |es| ==> es[i].Element?
    ensures Filter(RootChildren(es), IsElement) == es
  {
    if es == [] {
      assert [Text("\n")][..0] == [];
      assert Filter([Text("\n")], IsElement) == [];
    } else {
      var init, e := es[..|es| - 1], es[|es| - 1];
      RootChildrenElements(init);
      FilterAppend(RootChildren(init), [Text("\t"), e, Text("\n")], IsElement);
      LineElements(e);
      assert es == init + [e];
    }
  }

  /**
   * The top elements: the ordering question's `fastest` element first exactly
   * when there is one, then one `question` element per regular question, in
   * list order.
   */
  lemma FastestTag(q: FastestFinger)
    ensures FastestElement(q).Element? && FastestElement(q).tag == "fastest"
  {
  }

  lemma QuestionTag(r: Regular)
    ensures QuestionElement(r).Element? && QuestionElement(r).tag == "question"
  {
  }

  lemma TopElementsShape(ff: Option<FastestFinger>, qs: seq<Regular>)
    ensures |TopElements(ff, qs)| == (if ff.Some? then 1 else 0) + |qs|
    ensures ff.Some? ==> TopElements(ff, qs)[0] == FastestElement(ff.value)
    ensures forall k :: 0 <= k < |qs| ==> TopElements(ff, qs)[(if ff.Some? then 1 else 0) + k] == QuestionElement(qs[k])
  {
    var rest := QuestionElements(qs);
    if ff.Some? {
      var top := [FastestElement(ff.value)] + rest;
      assert top == TopElements(ff, qs);
      forall k | 0 <= k < |qs|
        ensures top[1 + k] == QuestionElement(qs[k])
      {
        assert top[1 + k] == rest[k];
      }
    } else {
      assert rest == TopElements(ff, qs);
    }
  }

  lemma QuestionElementsAreElements(qs: seq<Regular>)
    ensures forall k :: 0 <= k < |qs| ==> QuestionElements(qs)[k].Element?
  {
    forall k | 0 <= k < |qs|
      ensures QuestionElements(qs)[k].Element?
    {
      QuestionTag(qs[k]);
    }
  }

  /** Every top element is an element. */
  lemma TopElementsAreElements(ff: Option<FastestFinger>, qs: seq<Regular>)
    ensures forall k :: 0 <= k < |TopElements(ff, qs)| ==> TopElements(ff, qs)[k].Element?
  {
    var first := if ff.Some? then [FastestElement(ff.value)] else [];
    var rest := QuestionElements(qs);
    QuestionElementsAreElements(qs);
    if ff.Some? {
      FastestTag(ff.value);
    }
    assert forall k :: 0 <= k < |first| ==> first[k].Element?;
    assert forall k :: 0 <= k < |rest| ==> rest[k].Element?;
    assert TopElements(ff, qs) == first + rest;
  }

  /** The elements directly under the exported root, in order, are the top elements. */
  lemma ExportTreeElements(ff: Option<FastestFinger>, qs: seq<Regular>)
    ensures Filter(ExportTree(ff, qs).children, IsElement) == TopElements(ff, qs)
  {
    TopElementsAreElements(ff, qs);
    RootChildrenElements(TopElements(ff, qs));
  }
}
