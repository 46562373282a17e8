/**
 * `RegularQuestionForm`: the record being edited, the radio button's
 * `correctAnswer`, the change handlers that update them one field at a time,
 * and the submit that hands the record to the store.
 */
module RegularForm {
  import opened Wrappers
  import opened Question
  import opened QuestionsContext

  /** The record a new form starts from: everything empty, nothing correct, nothing selected, no difficulty. */
  function NewRegular(formId: Id): Regular {
    Regular(formId, "", "",
      Answers(Answer("", false), Answer("", false), Answer("", false), Answer("", false)),
      false, None)
  }

  /**
   * The initial `correctAnswer`: the first key, in the order a, b, c, d, whose
   * answer is correct in the edited record, and 'a' when there is none or
   * the form is new.
   */
  function InitialCorrectAnswer(editQuestion: Option<Regular>): (k: Letter)
    ensures editQuestion.Some? && CorrectCount(editQuestion.value.answers) > 0 ==>
              FirstCorrectIs(editQuestion.value.answers, k)
    ensures editQuestion.None? || CorrectCount(editQuestion.value.answers) == 0 ==> k == A
  {
    if editQuestion.None? then A
    else
      var ans := editQuestion.value.answers;
      var k := if ans.a.correct then A else if ans.b.correct then B else if ans.c.correct then C else if ans.d.correct then D else A;
      assert A.Index() == 0 && B.Index() == 1 && C.Index() == 2 && D.Index() == 3;
      k
  }

  /** `updatedAnswers` of `handleCorrectAnswerChange(v)`: every answer keeps its text, and only `v` is correct. */
  function Rechecked(ans: Answers, v: Letter): (r: Answers)
    ensures forall k: Letter :: r.Get(k).text == ans.Get(k).text
    ensures forall k: Letter :: r.Get(k).correct <==> k == v
  {
    Answers(
      Answer(ans.a.text, v == A), Answer(ans.b.text, v == B),
      Answer(ans.c.text, v == C), Answer(ans.d.text, v == D))
  }

  /**
   * The form's `required` fields: category, text and the four answer texts.
   * The `<form>` does not opt out of the browser's constraint validation, so
   * a submit with one of them empty never reaches `handleSubmit`.
   */
  predicate RequiredFilled(q: Regular) {
    && q.category != "" && q.text != ""
    && q.answers.a.text != "" && q.answers.b.text != "" && q.answers.c.text != "" && q.answers.d.text != ""
  }

  class Form {
    /** The `editQuestion` prop: the record being edited, or none for a new question. */
    const editQuestion: Option<Regular>
    var question: Regular
    var correctAnswer: Letter

    /** The radio button and the flags agree: exactly one answer is correct, the one the button shows. */
    predicate Consistent()
      reads this
    {
      CorrectCount(question.answers) == 1 && question.answers.Get(correctAnswer).correct
    }

    /** The form's first state; `formId` is the `uuidv4()` a new record gets. */
    constructor (editQuestion: Option<Regular>, formId: Id)
      ensures this.editQuestion == editQuestion
      ensures question == if editQuestion.Some? then editQuestion.value else NewRegular(formId)
      ensures correctAnswer == InitialCorrectAnswer(editQuestion)
    {
      this.editQuestion := editQuestion;
      question := if editQuestion.Some? then editQuestion.value else NewRegular(formId);
      correctAnswer := InitialCorrectAnswer(editQuestion);
    }

    /** `handleTextChange` */
    method HandleTextChange(value: string)
      modifies this
      ensures question == old(question).(text := value) && correctAnswer == old(correctAnswer)
      ensures old(Consistent()) ==> Consistent()
    {
      question := question.(text := value);
    }

    /** `handleCategoryChange` */
    method HandleCategoryChange(value: string)
      modifies this
      ensures question == old(question).(category := value) && correctAnswer == old(correctAnswer)
      ensures old(Consistent()) ==> Consistent()
    {
      question := question.(category := value);
    }

    /** `handleAnswerTextChange(key, value)`: the answer keeps its `correct` flag. */
    method HandleAnswerTextChange(key: Letter, value: string)
      modifies this
      ensures question == old(question).(answers := old(question).answers.With(key, Answer(value, old(question).answers.Get(key).correct)))
      ensures correctAnswer == old(correctAnswer)
      ensures old(Consistent()) ==> Consistent()
    {
      var ans := question.answers;
      TextEditKeepsFlags(ans, key, value);
      question := question.(answers := ans.With(key, Answer(value, ans.Get(key).correct)));
    }

    /** `handleCorrectAnswerChange(value)` */
    method HandleCorrectAnswerChange(value: Letter)
      modifies this
      ensures correctAnswer == value
      ensures question == old(question).(answers := Rechecked(old(question).answers, value))
      ensures Consistent()
    {
      correctAnswer := value;
      var updatedAnswers := Rechecked(question.answers, value);
      RecheckedHasOneCorrect(question.answers, value);
      question := question.(answers := updatedAnswers);
    }

    /**
     * Submitting the form: the browser first checks the `required` fields and,
     * if one is empty, stops there, with the store unchanged and no callback.
     * Otherwise `handleSubmit` runs: an edited record replaces the entries with
     * its id, a new one is added (with the store's `freshId`); `notified` says
     * whether `onComplete` was called, which then happens whenever it is given.
     */
    method HandleSubmit(store: QuestionStore, freshId: Id, onComplete: bool) returns (notified: bool)
      modifies store
      ensures !RequiredFilled(question) ==> store.regular == old(store.regular) && !notified
      ensures RequiredFilled(question) && editQuestion.Some? ==>
                store.regular == UpdatedRegular(old(store.regular), question.id, FullRegular(question))
      ensures RequiredFilled(question) && editQuestion.None? ==>
                store.regular == old(store.regular) + [AddedRegular(question, freshId)]
      ensures store.fastest == old(store.fastest)
      ensures notified == (RequiredFilled(question) && onComplete)
    {
      if !RequiredFilled(question) {
        return false;
      }
      if editQuestion.Some? {
        var ok := store.UpdateRegular(question.id, FullRegular(question));
      } else {
        var ok := store.AddRegular(question, freshId);
      }
      notified := onComplete;
    }
  }

  // ----- lemmas --------------------------------------------------------------------

  /** A new form cannot be submitted before its category, text and answers are typed in. */
  lemma NewFormNotSubmittable(formId: Id)
    ensures !RequiredFilled(NewRegular(formId))
  {
  }

  /** A new form shows 'a' on the radio button although no answer is correct. */
  lemma NewFormDisagrees(formId: Id)
    ensures InitialCorrectAnswer(None) == A
    ensures CorrectCount(NewRegular(formId).answers) == 0
    ensures !NewRegular(formId).selected && NewRegular(formId).difficulty.None?
  {
  }

  /** After choosing `v`, exactly one answer is correct, and it is the first correct one. */
  lemma RecheckedHasOneCorrect(ans: Answers, v: Letter)
    ensures CorrectCount(Rechecked(ans, v)) == 1
    ensures FirstCorrectIs(Rechecked(ans, v), v)
  {
    var r := Rechecked(ans, v);
    assert r.Get(A).correct == (v == A) && r.Get(B).correct == (v == B);
    assert r.Get(C).correct == (v == C) && r.Get(D).correct == (v == D);
  }

  /** Reopening the form on a record whose answer `v` was chosen shows `v` again. */
  lemma ReopenShowsChoice(q: Regular, v: Letter)
    ensures InitialCorrectAnswer(Some(q.(answers := Rechecked(q.answers, v)))) == v
  {
    var r := Rechecked(q.answers, v);
    RecheckedHasOneCorrect(q.answers, v);
    FirstCorrectUnique(r, InitialCorrectAnswer(Some(q.(answers := r))), v);
  }

  /** Changing an answer's text keeps every `correct` flag, so the number of correct answers too. */
  lemma TextEditKeepsFlags(ans: Answers, k: Letter, s: string)
    ensures forall j: Letter :: ans.With(k, Answer(s, ans.Get(k).correct)).Get(j).correct == ans.Get(j).correct
    ensures CorrectCount(ans.With(k, Answer(s, ans.Get(k).correct))) == CorrectCount(ans)
  {
    var r := ans.With(k, Answer(s, ans.Get(k).correct));
    assert r.Get(A).correct == ans.a.correct && r.Get(B).correct == ans.b.correct;
    assert r.Get(C).correct == ans.c.correct && r.Get(D).correct == ans.d.correct;
  }

  /** Submitting an edit stores the form's record under its id, and leaves the other entries alone. */
  lemma SubmittedEditStored(qs: seq<Regular>, q: Regular)
    ensures |UpdatedRegular(qs, q.id, FullRegular(q))| == |qs|
    ensures forall i :: 0 <= i < |qs| && qs[i].id == q.id ==> UpdatedRegular(qs, q.id, FullRegular(q))[i] == q
    ensures forall i :: 0 <= i < |qs| && qs[i].id != q.id ==> UpdatedRegular(qs, q.id, FullRegular(q))[i] == qs[i]
  {
    forall i | 0 <= i < |qs| && qs[i].id == q.id
      ensures UpdatedRegular(qs, q.id, FullRegular(q))[i] == q
    {
      assert PatchRegular(qs[i], FullRegular(q)) == q;
    }
  }
}
