/**
 * The question store of `QuestionsProvider`: two lists, one of ordering
 * ("fastest finger") questions and one of regular questions, and the
 * operations that replace them.
 */
module QuestionsContext {
  import opened Wrappers
  import opened Question
  import opened Seqs

  /** A present field of a partial record overrides, an absent one keeps the old value. */
  function Or<T>(field: Option<T>, old_value: T): T {
    if field.Some? then field.value else old_value
  }

  /** `Partial<FastestFingerQuestion>`: `Some` for each key the object has. */
  datatype FastestPatch = FastestPatch(
    id: Option<Id>,
    text: Option<string>,
    answers: Option<Options>,
    correctOrder: Option<Order>,
    selected: Option<bool>,
    difficulty: Option<int>)

  /**
   * `Partial<RegularQuestion>`. `difficulty` is `Some(None)` when the key is
   * present with the value `undefined`, which the spread copies.
   */
  datatype RegularPatch = RegularPatch(
    id: Option<Id>,
    category: Option<string>,
    text: Option<string>,
    answers: Option<Answers>,
    selected: Option<bool>,
    difficulty: Option<Option<int>>)

  /** `{ ...q, ...patch }` */
  function PatchFastest(q: FastestFinger, p: FastestPatch): FastestFinger {
    FastestFinger(Or(p.id, q.id), Or(p.text, q.text), Or(p.answers, q.answers),
      Or(p.correctOrder, q.correctOrder), Or(p.selected, q.selected), Or(p.difficulty, q.difficulty))
  }

  function PatchRegular(q: Regular, p: RegularPatch): Regular {
    Regular(Or(p.id, q.id), Or(p.category, q.category), Or(p.text, q.text),
      Or(p.answers, q.answers), Or(p.selected, q.selected), Or(p.difficulty, q.difficulty))
  }

  /** A whole record passed as the partial update, as the forms do. */
  function FullFastest(q: FastestFinger): FastestPatch {
    FastestPatch(Some(q.id), Some(q.text), Some(q.answers), Some(q.correctOrder), Some(q.selected), Some(q.difficulty))
  }

  function FullRegular(q: Regular): RegularPatch {
    RegularPatch(Some(q.id), Some(q.category), Some(q.text), Some(q.answers), Some(q.selected), Some(q.difficulty))
  }

  /** What `add` stores: `{ ...question, id: uuidv4(), selected: false }`. */
  function AddedFastest(q: FastestFinger, freshId: Id): (r: FastestFinger)
    ensures r.id == freshId && !r.selected
    ensures r.(id := q.id, selected := q.selected) == q
  {
    q.(id := freshId, selected := false)
  }

  function AddedRegular(q: Regular, freshId: Id): (r: Regular)
    ensures r.id == freshId && !r.selected
    ensures r.(id := q.id, selected := q.selected) == q
  {
    q.(id := freshId, selected := false)
  }

  /** `prev.map(q => q.id === id ? { ...q, ...patch } : q)` */
  function UpdatedFastest(qs: seq<FastestFinger>, id: Id, p: FastestPatch): (r: seq<FastestFinger>)
    ensures |r| == |qs|
  {
    seq(|qs|, i requires 0 <= i < |qs| => if qs[i].id == id then PatchFastest(qs[i], p) else qs[i])
  }

  function UpdatedRegular(qs: seq<Regular>, id: Id, p: RegularPatch): (r: seq<Regular>)
    ensures |r| == |qs|
  {
    seq(|qs|, i requires 0 <= i < |qs| => if qs[i].id == id then PatchRegular(qs[i], p) else qs[i])
  }

  /** `prev.filter(q => q.id !== id)` */
  function DeletedFastest(qs: seq<FastestFinger>, id: Id): seq<FastestFinger> {
    Filter(qs, (q: FastestFinger) => q.id != id)
  }

  function DeletedRegular(qs: seq<Regular>, id: Id): seq<Regular> {
    Filter(qs, (q: Regular) => q.id != id)
  }

  /** `prev.map(q => ({ ...q, selected: q.id === id }))` */
  function SelectOnly(qs: seq<FastestFinger>, id: Id): (r: seq<FastestFinger>)
    ensures |r| == |qs|
  {
    seq(|qs|, i requires 0 <= i < |qs| => qs[i].(selected := qs[i].id == id))
  }

  /** `prev.map(q => q.id === id ? { ...q, selected: !q.selected } : q)` */
  function FlipSelected(qs: seq<Regular>, id: Id): (r: seq<Regular>)
    ensures |r| == |qs|
  {
    seq(|qs|, i requires 0 <= i < |qs| => if qs[i].id == id then qs[i].(selected := !qs[i].selected) else qs[i])
  }

  /** `fastestFingerQuestions.find(q => q.selected) || null` */
  function FirstSelected(qs: seq<FastestFinger>): (r: Option<FastestFinger>)
    ensures r.None? <==> forall i :: 0 <= i < |qs| ==> !qs[i].selected
    ensures r.Some? ==> exists i :: 0 <= i < |qs| && qs[i] == r.value && r.value.selected
                          && forall j :: 0 <= j < i ==> !qs[j].selected
  {
    if qs == [] then None
    else if qs[0].selected then Some(qs[0])
    else
      var r := FirstSelected(qs[1..]);
      assert r.Some? ==> exists i :: 0 <= i < |qs| && qs[i] == r.value && r.value.selected
                          && forall j :: 0 <= j < i ==> !qs[j].selected by {
        if r.Some? {
          var k :| 0 <= k < |qs[1..]| && qs[1..][k] == r.value && r.value.selected
                   && forall j :: 0 <= j < k ==> !qs[1..][j].selected;
          assert qs[k + 1] == r.value;
          assert forall j :: 0 <= j < k + 1 ==> !qs[j].selected by {
            forall j | 0 <= j < k + 1 ensures !qs[j].selected {
              if j > 0 { assert qs[j] == qs[1..][j - 1]; }
            }
          }
        }
      }
      r
  }

  /** `regularQuestions.filter(q => q.selected)` */
  function SelectedRegular(qs: seq<Regular>): seq<Regular> {
    Filter(qs, (q: Regular) => q.selected)
  }

  function SelectedFastest(qs: seq<FastestFinger>): seq<FastestFinger> {
    Filter(qs, (q: FastestFinger) => q.selected)
  }

  predicate UniqueFastestIds(qs: seq<FastestFinger>) {
    forall i, j :: 0 <= i < |qs| && 0 <= j < |qs| && qs[i].id == qs[j].id ==> i == j
  }

  predicate UniqueRegularIds(qs: seq<Regular>) {
    forall i, j :: 0 <= i < |qs| && 0 <= j < |qs| && qs[i].id == qs[j].id ==> i == j
  }

  /** The state of `QuestionsProvider`: the two `useState` lists. */
  class QuestionStore {
    var fastest: seq<FastestFinger>
    var regular: seq<Regular>

    /** Both lists start empty. */
    constructor()
      ensures fastest == [] && regular == []
    {
      fastest := [];
      regular := [];
    }

    /** `addFastestFingerQuestion`; `freshId` is the value `uuidv4()` returns. */
    method AddFastest(q: FastestFinger, freshId: Id) returns (ok: bool)
      modifies this
      ensures ok
      ensures fastest == old(fastest) + [AddedFastest(q, freshId)] && regular == old(regular)
    {
      fastest := fastest + [AddedFastest(q, freshId)];
      ok := true;
    }

    /** `addRegularQuestion` */
    method AddRegular(q: Regular, freshId: Id) returns (ok: bool)
      modifies this
      ensures ok
      ensures regular == old(regular) + [AddedRegular(q, freshId)] && fastest == old(fastest)
    {
      regular := regular + [AddedRegular(q, freshId)];
      ok := true;
    }

    /** `updateFastestFingerQuestion` */
    method UpdateFastest(id: Id, p: FastestPatch) returns (ok: bool)
      modifies this
      ensures ok
      ensures fastest == UpdatedFastest(old(fastest), id, p) && regular == old(regular)
    {
      fastest := UpdatedFastest(fastest, id, p);
      ok := true;
    }

    /** `updateRegularQuestion` */
    method UpdateRegular(id: Id, p: RegularPatch) returns (ok: bool)
      modifies this
      ensures ok
      ensures regular == UpdatedRegular(old(regular), id, p) && fastest == old(fastest)
    {
      regular := UpdatedRegular(regular, id, p);
      ok := true;
    }

    /** `deleteFastestFingerQuestion` */
    method DeleteFastest(id: Id) returns (ok: bool)
      modifies this
      ensures ok
      ensures fastest == DeletedFastest(old(fastest), id) && regular == old(regular)
    {
      fastest := DeletedFastest(fastest, id);
      ok := true;
    }

    /** `deleteRegularQuestion` */
    method DeleteRegular(id: Id) returns (ok: bool)
      modifies this
      ensures ok
      ensures regular == DeletedRegular(old(regular), id) && fastest == old(fastest)
    {
      regular := DeletedRegular(regular, id);
      ok := true;
    }

    /** `toggleFastestFingerQuestionSelection` */
    method ToggleFastest(id: Id)
      modifies this
      ensures fastest == SelectOnly(old(fastest), id) && regular == old(regular)
    {
      fastest := SelectOnly(fastest, id);
    }

    /** `toggleRegularQuestionSelection` */
    method ToggleRegular(id: Id)
      modifies this
      ensures regular == FlipSelected(old(regular), id) && fastest == old(fastest)
    {
      regular := FlipSelected(regular, id);
    }

    /** `getSelectedFastestFingerQuestion` */
    method GetSelectedFastest() returns (r: Option<FastestFinger>)
      ensures r == FirstSelected(fastest)
    {
      r := FirstSelected(fastest);
    }

    /** `getSelectedRegularQuestions` */
    method GetSelectedRegular() returns (r: seq<Regular>)
      ensures r == SelectedRegular(regular)
    {
      r := SelectedRegular(regular);
    }

    /**
     * `setQuestions`: the regular list is always replaced; the ordering list
     * becomes the one given question, or stays as it was when there is none.
     */
    method SetQuestions(imported: Imported)
      modifies this
      ensures regular == imported.regular
      ensures fastest == if imported.fastest.Some? then [imported.fastest.value] else old(fastest)
    {
      if imported.fastest.Some? {
        fastest := [imported.fastest.value];
      }
      regular := imported.regular;
    }
  }

  // ----- add ----------------------------------------------------------------------

  /** Adding with an id not yet in use keeps the ids unique. */
  lemma AddKeepsUniqueIds(qs: seq<FastestFinger>, q: FastestFinger, freshId: Id)
    requires UniqueFastestIds(qs)
    requires forall i :: 0 <= i < |qs| ==> qs[i].id != freshId
    ensures UniqueFastestIds(qs + [AddedFastest(q, freshId)])
  {
  }

  // ----- update -------------------------------------------------------------------

  /** Update changes exactly the entries with the id, each by the patch, and keeps position. */
  lemma {:induction false} UpdatedFastestEntries(qs: seq<FastestFinger>, id: Id, p: FastestPatch)
    ensures forall i :: 0 <= i < |qs| && qs[i].id != id ==> UpdatedFastest(qs, id, p)[i] == qs[i]
    ensures forall i :: 0 <= i < |qs| && qs[i].id == id ==> UpdatedFastest(qs, id, p)[i] == PatchFastest(qs[i], p)
  {
  }

  lemma {:induction false} UpdatedRegularEntries(qs: seq<Regular>, id: Id, p: RegularPatch)
    ensures forall i :: 0 <= i < |qs| && qs[i].id != id ==> UpdatedRegular(qs, id, p)[i] == qs[i]
    ensures forall i :: 0 <= i < |qs| && qs[i].id == id ==> UpdatedRegular(qs, id, p)[i] == PatchRegular(qs[i], p)
  {
  }

  /** A field the patch lacks is kept; a field it has is overwritten. */
  lemma PatchFastestFields(q: FastestFinger, p: FastestPatch)
    ensures p.text.None? ==> PatchFastest(q, p).text == q.text
    ensures p.text.Some? ==> PatchFastest(q, p).text == p.text.value
    ensures p.correctOrder.None? ==> PatchFastest(q, p).correctOrder == q.correctOrder
    ensures p.correctOrder.Some? ==> PatchFastest(q, p).correctOrder == p.correctOrder.value
    ensures p.selected.None? ==> PatchFastest(q, p).selected == q.selected
    ensures p == FastestPatch(None, None, None, None, None, None) ==> PatchFastest(q, p) == q
  {
  }

  lemma PatchRegularFields(q: Regular, p: RegularPatch)
    ensures p.text.None? ==> PatchRegular(q, p).text == q.text
    ensures p.text.Some? ==> PatchRegular(q, p).text == p.text.value
    ensures p.difficulty.None? ==> PatchRegular(q, p).difficulty == q.difficulty
    ensures p.difficulty.Some? ==> PatchRegular(q, p).difficulty == p.difficulty.value
    ensures p.selected.None? ==> PatchRegular(q, p).selected == q.selected
    ensures p == RegularPatch(None, None, None, None, None, None) ==> PatchRegular(q, p) == q
  {
  }

  /** Passing a whole record as the patch replaces the entry by that record. */
  lemma FullPatchReplaces(q: FastestFinger, r: FastestFinger, q2: Regular, r2: Regular)
    ensures PatchFastest(q, FullFastest(r)) == r
    ensures PatchRegular(q2, FullRegular(r2)) == r2
  {
  }

  /** Updating an id nobody has changes nothing. */
  lemma {:induction false} UpdateMissingId(qs: seq<FastestFinger>, id: Id, p: FastestPatch)
    requires forall i :: 0 <= i < |qs| ==> qs[i].id != id
    ensures UpdatedFastest(qs, id, p) == qs
  {
    assert forall i :: 0 <= i < |qs| ==> UpdatedFastest(qs, id, p)[i] == qs[i];
  }

  // ----- delete -------------------------------------------------------------------

  /** Delete removes exactly the entries with the id; what is left keeps its order. */
  lemma {:induction false} DeletedFastestExactly(qs: seq<FastestFinger>, id: Id, q: FastestFinger)
    ensures q in DeletedFastest(qs, id) <==> q in qs && q.id != id
  {
    var r := DeletedFastest(qs, id);
    if q in r {
      var i :| 0 <= i < |r| && r[i] == q;
    }
    if q in qs && q.id != id {
      var i :| 0 <= i < |qs| && qs[i] == q;
    }
  }

  lemma {:induction false} DeletedRegularExactly(qs: seq<Regular>, id: Id, q: Regular)
    ensures q in DeletedRegular(qs, id) <==> q in qs && q.id != id
  {
    var r := DeletedRegular(qs, id);
    if q in r {
      var i :| 0 <= i < |r| && r[i] == q;
    }
    if q in qs && q.id != id {
      var i :| 0 <= i < |qs| && qs[i] == q;
    }
  }

  /** Delete works piecewise, so the order of the remaining entries is kept. */
  lemma DeletedRegularAppend(a: seq<Regular>, b: seq<Regular>, id: Id)
    ensures DeletedRegular(a + b, id) == DeletedRegular(a, id) + DeletedRegular(b, id)
  {
    FilterAppend(a, b, (q: Regular) => q.id != id);
  }

  lemma DeletedFastestAppend(a: seq<FastestFinger>, b: seq<FastestFinger>, id: Id)
    ensures DeletedFastest(a + b, id) == DeletedFastest(a, id) + DeletedFastest(b, id)
  {
    FilterAppend(a, b, (q: FastestFinger) => q.id != id);
  }

  // ----- toggles ------------------------------------------------------------------

  /** After the ordering toggle, `selected` is true exactly for the entries with the id. */
  lemma SelectOnlyEntries(qs: seq<FastestFinger>, id: Id)
    ensures forall i :: 0 <= i < |qs| ==> (SelectOnly(qs, id)[i].selected <==> qs[i].id == id)
    ensures forall i :: 0 <= i < |qs| ==> SelectOnly(qs, id)[i].(selected := qs[i].selected) == qs[i]
  {
  }

  /** With unique ids at most one ordering question is selected after the toggle. */
  lemma {:induction false} SelectOnlyAtMostOne(qs: seq<FastestFinger>, id: Id)
    requires UniqueFastestIds(qs)
    ensures Count(SelectOnly(qs, id), (q: FastestFinger) => q.selected) <= 1
  {
    var r := SelectOnly(qs, id);
    CountAtMostOne(r, (q: FastestFinger) => q.selected);
  }

  /** Toggling the already-selected entry keeps it selected, and the toggle is idempotent. */
  lemma SelectOnlyIdempotent(qs: seq<FastestFinger>, id: Id)
    ensures SelectOnly(SelectOnly(qs, id), id) == SelectOnly(qs, id)
    ensures forall i :: 0 <= i < |qs| && qs[i].selected && qs[i].id == id ==> SelectOnly(qs, id)[i].selected
  {
  }

  /** A later ordering toggle overrides an earlier one. */
  lemma SelectOnlyTwice(qs: seq<FastestFinger>, a: Id, b: Id)
    ensures SelectOnly(SelectOnly(qs, a), b) == SelectOnly(qs, b)
  {
  }

  /** The regular toggle flips only the entries with the id. */
  lemma FlipSelectedEntries(qs: seq<Regular>, id: Id)
    ensures forall i :: 0 <= i < |qs| && qs[i].id != id ==> FlipSelected(qs, id)[i] == qs[i]
    ensures forall i :: 0 <= i < |qs| && qs[i].id == id ==>
              FlipSelected(qs, id)[i] == qs[i].(selected := !qs[i].selected)
  {
  }

  /** Toggling a regular question twice restores the list. */
  lemma FlipSelectedInvolution(qs: seq<Regular>, id: Id)
    ensures FlipSelected(FlipSelected(qs, id), id) == qs
  {
  }

  // ----- getters ------------------------------------------------------------------

  /** The selected regular questions are those of the list with `selected`, in list order. */
  lemma {:induction false} SelectedRegularExactly(qs: seq<Regular>, q: Regular)
    ensures q in SelectedRegular(qs) <==> q in qs && q.selected
  {
    var r := SelectedRegular(qs);
    if q in r {
      var i :| 0 <= i < |r| && r[i] == q;
    }
    if q in qs && q.selected {
      var i :| 0 <= i < |qs| && qs[i] == q;
    }
  }

  /** Right after an ordering toggle on a present id, the selected ordering question is the first one with that id. */
  lemma {:induction false} FirstSelectedAfterToggle(qs: seq<FastestFinger>, id: Id, k: nat)
    requires k < |qs| && qs[k].id == id
    requires forall j :: 0 <= j < k ==> qs[j].id != id
    ensures FirstSelected(SelectOnly(qs, id)) == Some(qs[k].(selected := true))
  {
    var r := SelectOnly(qs, id);
    var f := FirstSelected(r);
    assert r[k].selected;
    var i :| 0 <= i < |r| && r[i] == f.value && f.value.selected && forall j :: 0 <= j < i ==> !r[j].selected;
    assert i == k;
  }
}
