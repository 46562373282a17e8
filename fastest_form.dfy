/**
 * `FastestFingerForm`: the ordering record being edited, the change
 * handlers that update one of its fields at a time, and the submit that
 * hands it to the store and closes the form.
 */
module FastestForm {
  import opened Wrappers
  import opened JsString
  import opened Question
  import opened QuestionsContext

  /** The order a new form starts from. */
  const DefaultOrder := Order("a", "b", "c", "d")

  /** The record a new form starts from: empty texts, the order a, b, c, d, unselected, easy. */
  function NewFastest(formId: Id): FastestFinger {
    FastestFinger(formId, "", Options("", "", "", ""), DefaultOrder, false, 1)
  }

  /** The values the difficulty select offers. */
  predicate IsDifficultyChoice(value: string) {
    value == "1" || value == "2" || value == "3"
  }

  /** `parseInt(value)` on a value of the difficulty select. */
  function ChoiceDifficulty(value: string): (d: int)
    requires IsDifficultyChoice(value)
    ensures 1 <= d <= 3
    ensures IntToDecimal(d) == value
  {
    var d := if value == "1" then 1 else if value == "2" then 2 else 3;
    assert IntToDecimal(d) == [DigitChar(d)];
    d
  }

  /**
   * The form's `required` fields: the text and the four options. The `<form>`
   * does not opt out of the browser's constraint validation, so a submit with
   * one of them empty never reaches `handleSubmit`.
   */
  predicate RequiredFilled(q: FastestFinger) {
    q.text != "" && q.answers.a != "" && q.answers.b != "" && q.answers.c != "" && q.answers.d != ""
  }

  /** The callbacks `handleSubmit` calls. */
  datatype Callback = OnComplete | OnClose

  class Form {
    /** The `editQuestion` prop: the record being edited, or none for a new question. */
    const editQuestion: Option<FastestFinger>
    var question: FastestFinger

    /** The form's first state; `formId` is the `uuidv4()` a new record gets. */
    constructor (editQuestion: Option<FastestFinger>, formId: Id)
      ensures this.editQuestion == editQuestion
      ensures question == if editQuestion.Some? then editQuestion.value else NewFastest(formId)
    {
      this.editQuestion := editQuestion;
      question := if editQuestion.Some? then editQuestion.value else NewFastest(formId);
    }

    /** `handleTextChange` */
    method HandleTextChange(value: string)
      modifies this
      ensures question == old(question).(text := value)
    {
      question := question.(text := value);
    }

    /** `handleAnswerChange(key, value)` */
    method HandleAnswerChange(key: Letter, value: string)
      modifies this
      ensures question == old(question).(answers := old(question).answers.With(key, value))
    {
      question := question.(answers := question.answers.With(key, value));
    }

    /** `handleOrderChange(position, value)`: nothing keeps the four slots apart. */
    method HandleOrderChange(position: Position, value: Letter)
      modifies this
      ensures question == old(question).(correctOrder := old(question).correctOrder.WithSlot(position, value.Name()))
    {
      question := question.(correctOrder := question.correctOrder.WithSlot(position, value.Name()));
    }

    /** `handleDifficultyChange(value)` */
    method HandleDifficultyChange(value: string)
      requires IsDifficultyChoice(value)
      modifies this
      ensures question == old(question).(difficulty := ChoiceDifficulty(value))
    {
      var difficulty := ChoiceDifficulty(value);
      question := question.(difficulty := difficulty);
    }

    /**
     * Submitting the form: the browser first checks the `required` fields and,
     * if one is empty, stops there, with the store unchanged and no callback.
     * Otherwise `handleSubmit` runs: an edited record replaces the entries with
     * its id, a new one is added (with the store's `freshId`); then
     * `onComplete` and `onClose` are called, in that order, when given.
     */
    method HandleSubmit(store: QuestionStore, freshId: Id, onComplete: bool, onClose: bool) returns (called: seq<Callback>)
      modifies store
      ensures !RequiredFilled(question) ==> store.fastest == old(store.fastest) && called == []
      ensures RequiredFilled(question) && editQuestion.Some? ==>
                store.fastest == UpdatedFastest(old(store.fastest), question.id, FullFastest(question))
      ensures RequiredFilled(question) && editQuestion.None? ==>
                store.fastest == old(store.fastest) + [AddedFastest(question, freshId)]
      ensures store.regular == old(store.regular)
      ensures RequiredFilled(question) ==>
                called == (if onComplete then [OnComplete] else []) + (if onClose then [OnClose] else [])
    {
      if !RequiredFilled(question) {
        return [];
      }
      if editQuestion.Some? {
        var ok := store.UpdateFastest(question.id, FullFastest(question));
      } else {
        var ok := store.AddFastest(question, freshId);
      }
      called := [];
      if onComplete {
        called := called + [OnComplete];
      }
      if onClose {
        called := called + [OnClose];
      }
    }
  }

  // ----- lemmas --------------------------------------------------------------------

  /** A new form holds a well-typed order naming each option once, and the declared difficulty 1. */
  lemma NewFormDefaults(formId: Id)
    ensures IsPermutation(NewFastest(formId).correctOrder)
    ensures NewFastest(formId).difficulty == 1 && !NewFastest(formId).selected
    ensures forall k: Letter :: NewFastest(formId).answers.Get(k) == ""
  {
  }

  /** A new form cannot be submitted before its text and options are typed in. */
  lemma NewFormNotSubmittable(formId: Id)
    ensures !RequiredFilled(NewFastest(formId))
  {
  }

  /** The order select only offers the four keys, so a well-typed order stays well-typed. */
  lemma OrderChangeKeepsWellTyped(o: Order, p: Position, v: Letter)
    requires WellTypedOrder(o)
    ensures WellTypedOrder(o.WithSlot(p, v.Name()))
  {
    var r := o.WithSlot(p, v.Name());
    assert IsLabel(v.Name());
    assert r.Slot(One) == r.one && r.Slot(Two) == r.two && r.Slot(Three) == r.three && r.Slot(Four) == r.four;
    assert o.Slot(One) == o.one && o.Slot(Two) == o.two && o.Slot(Three) == o.three && o.Slot(Four) == o.four;
  }

  /** One order change from the default already gives an order that repeats a key. */
  lemma OrderChangeMayRepeat()
    ensures WellTypedOrder(DefaultOrder.WithSlot(One, B.Name()))
    ensures !IsPermutation(DefaultOrder.WithSlot(One, B.Name()))
  {
    OrderChangeKeepsWellTyped(DefaultOrder, One, B);
    assert DefaultOrder.WithSlot(One, B.Name()) == Order("b", "b", "c", "d");
  }

  /** The difficulty a choice sets is the one the select then shows. */
  lemma DifficultyShownBack(d: int)
    requires 1 <= d <= 3
    ensures IsDifficultyChoice(IntToDecimal(d)) && ChoiceDifficulty(IntToDecimal(d)) == d
  {
    assert IntToDecimal(d) == [DigitChar(d)];
  }

  /** Submitting an edit stores the form's record under its id, and leaves the other entries alone. */
  lemma SubmittedEditStored(qs: seq<FastestFinger>, q: FastestFinger)
    ensures |UpdatedFastest(qs, q.id, FullFastest(q))| == |qs|
    ensures forall i :: 0 <= i < |qs| && qs[i].id == q.id ==> UpdatedFastest(qs, q.id, FullFastest(q))[i] == q
    ensures forall i :: 0 <= i < |qs| && qs[i].id != q.id ==> UpdatedFastest(qs, q.id, FullFastest(q))[i] == qs[i]
  {
    forall i | 0 <= i < |qs| && qs[i].id == q.id
      ensures UpdatedFastest(qs, q.id, FullFastest(q))[i] == q
    {
      assert PatchFastest(qs[i], FullFastest(q)) == q;
    }
  }
}
