/**
 * The two question records of the quiz authoring tool: a "fastest finger"
 * ordering question and a regular four-answer question.
 */
module Question {
  import opened Wrappers

  type Id = string

  /** The id generator (uuidv4): the k-th call made during one import returns uuid(k). */
  type IdSource = nat -> Id

  /** The four option keys 'a' | 'b' | 'c' | 'd'. */
  datatype Letter = A | B | C | D {
    /** The key as the records store it. */
    function Name(): string {
      match this
      case A => "a"
      case B => "b"
      case C => "c"
      case D => "d"
    }

    /** The key's place in the order a, b, c, d. */
    function Index(): (i: nat)
      ensures i < 4
    {
      match this
      case A => 0
      case B => 1
      case C => 2
      case D => 3
    }

    /** The key as a spreadsheet writes it. */
    function UpperName(): string {
      match this
      case A => "A"
      case B => "B"
      case C => "C"
      case D => "D"
    }
  }

  /** The four ranking positions 'one' | 'two' | 'three' | 'four'. */
  datatype Position = One | Two | Three | Four

  /** The declared type of an order slot, 'a' | 'b' | 'c' | 'd'. */
  predicate IsLabel(s: string) {
    s == "a" || s == "b" || s == "c" || s == "d"
  }

  /**
   * The `correctOrder` of an ordering question. A slot is a string because the
   * XML import stores whatever text it finds there; `WellTypedOrder` is the
   * declared type.
   */
  datatype Order = Order(one: string, two: string, three: string, four: string) {
    function Slot(p: Position): string {
      match p
      case One => one
      case Two => two
      case Three => three
      case Four => four
    }

    function WithSlot(p: Position, v: string): (r: Order)
      ensures r.Slot(p) == v
      ensures forall q :: q != p ==> r.Slot(q) == Slot(q)
    {
      match p
      case One => this.(one := v)
      case Two => this.(two := v)
      case Three => this.(three := v)
      case Four => this.(four := v)
    }
  }

  /** Every slot holds one of 'a', 'b', 'c', 'd'. */
  predicate WellTypedOrder(o: Order) {
    IsLabel(o.one) && IsLabel(o.two) && IsLabel(o.three) && IsLabel(o.four)
  }

  /** A well-typed order that names each option once. */
  predicate IsPermutation(o: Order) {
    && WellTypedOrder(o)
    && o.one != o.two && o.one != o.three && o.one != o.four
    && o.two != o.three && o.two != o.four
    && o.three != o.four
  }

  /** The four option strings of an ordering question, keyed a..d. */
  datatype Options = Options(a: string, b: string, c: string, d: string) {
    function Get(k: Letter): string {
      match k
      case A => a
      case B => b
      case C => c
      case D => d
    }

    function With(k: Letter, v: string): (r: Options)
      ensures r.Get(k) == v
      ensures forall j :: j != k ==> r.Get(j) == Get(j)
    {
      match k
      case A => this.(a := v)
      case B => this.(b := v)
      case C => this.(c := v)
      case D => this.(d := v)
    }
  }

  /** `FastestFingerQuestion`. The difficulty is declared 1 | 2 | 3 but imports store 0. */
  datatype FastestFinger = FastestFinger(
    id: Id,
    text: string,
    answers: Options,
    correctOrder: Order,
    selected: bool,
    difficulty: int)

  datatype Answer = Answer(text: string, correct: bool)

  /** The four answers of a regular question, keyed a..d. */
  datatype Answers = Answers(a: Answer, b: Answer, c: Answer, d: Answer) {
    function Get(k: Letter): Answer {
      match k
      case A => a
      case B => b
      case C => c
      case D => d
    }

    function With(k: Letter, v: Answer): (r: Answers)
      ensures r.Get(k) == v
      ensures forall j :: j != k ==> r.Get(j) == Get(j)
    {
      match k
      case A => this.(a := v)
      case B => this.(b := v)
      case C => this.(c := v)
      case D => this.(d := v)
    }
  }

  /**
   * `RegularQuestion`. The difficulty is declared 1 | 2 | 3, but imported
   * records and new form records carry none, hence `Option`.
   */
  datatype Regular = Regular(
    id: Id,
    category: string,
    text: string,
    answers: Answers,
    selected: bool,
    difficulty: Option<int>)

  /** What an import hands to the store: `{ fastestFingerQuestion, regularQuestions }`. */
  datatype Imported = Imported(fastest: Option<FastestFinger>, regular: seq<Regular>)

  function CorrectCount(ans: Answers): (n: nat)
    ensures n <= 4
    ensures n == 0 <==> !ans.a.correct && !ans.b.correct && !ans.c.correct && !ans.d.correct
  {
    (if ans.a.correct then 1 else 0) + (if ans.b.correct then 1 else 0)
    + (if ans.c.correct then 1 else 0) + (if ans.d.correct then 1 else 0)
  }

  /** `k` is the first key, in the order a, b, c, d, whose answer is marked correct. */
  predicate FirstCorrectIs(ans: Answers, k: Letter) {
    ans.Get(k).correct && forall j: Letter :: j.Index() < k.Index() ==> !ans.Get(j).correct
  }

  /** Some answer is correct exactly when there is a first correct one, and there is only one first. */
  lemma FirstCorrectUnique(ans: Answers, k: Letter, j: Letter)
    ensures CorrectCount(ans) > 0 <==> exists l: Letter :: FirstCorrectIs(ans, l)
    ensures FirstCorrectIs(ans, k) && FirstCorrectIs(ans, j) ==> k == j
  {
    if CorrectCount(ans) > 0 {
      if ans.a.correct { assert FirstCorrectIs(ans, A); }
      else if ans.b.correct { assert FirstCorrectIs(ans, B); }
      else if ans.c.correct { assert FirstCorrectIs(ans, C); }
      else { assert FirstCorrectIs(ans, D); }
    }
  }

  predicate DeclaredDifficulty(d: int) {
    d == 1 || d == 2 || d == 3
  }

  /** The record as `FastestFingerQuestion` declares it. */
  predicate DeclaredFastest(q: FastestFinger) {
    WellTypedOrder(q.correctOrder) && DeclaredDifficulty(q.difficulty)
  }

  /** The record as `RegularQuestion` declares it. */
  predicate DeclaredRegular(q: Regular) {
    q.difficulty.Some? && DeclaredDifficulty(q.difficulty.value)
  }

  /** The declared order type allows the same option in several slots. */
  lemma OrderSlotsMayRepeat()
    ensures WellTypedOrder(Order("a", "a", "b", "b")) && !IsPermutation(Order("a", "a", "b", "b"))
  {
  }

  /** Nothing in the declared answer type limits how many answers are correct. */
  lemma AllAnswersMayBeCorrect(t: string)
    ensures CorrectCount(Answers(Answer(t, true), Answer(t, true), Answer(t, true), Answer(t, true))) == 4
  {
  }
}
