/**
 * `SelectionBar`: the selected-question counter and the "Select All" /
 * "Unselect All" buttons, which walk the lists as they were rendered and
 * call the store's toggles one entry at a time.
 */
module SelectionBar {
  import opened Wrappers
  import opened Question
  import opened Seqs
  import opened QuestionsContext

  /** How many entries of a list of ids are `x`. */
  function Occurrences(ids: seq<Id>, x: Id): nat {
    Count(ids, (y: Id) => y == x)
  }

  /** The ids of the rendered regular entries whose `selected` flag is `sel`, in list order. */
  function RegularIdsWhere(qs: seq<Regular>, sel: bool): (ids: seq<Id>)
    ensures |ids| <= |qs|
  {
    if qs == [] then []
    else RegularIdsWhere(qs[..|qs| - 1], sel) + (if qs[|qs| - 1].selected == sel then [qs[|qs| - 1].id] else [])
  }

  function FastestIdsWhere(qs: seq<FastestFinger>, sel: bool): (ids: seq<Id>)
    ensures |ids| <= |qs|
  {
    if qs == [] then []
    else FastestIdsWhere(qs[..|qs| - 1], sel) + (if qs[|qs| - 1].selected == sel then [qs[|qs| - 1].id] else [])
  }

  /** The regular list after `toggleRegularQuestionSelection` on each id in turn. */
  function FlipEach(qs: seq<Regular>, ids: seq<Id>): (r: seq<Regular>)
    ensures |r| == |qs|
  {
    if ids == [] then qs else FlipSelected(FlipEach(qs, ids[..|ids| - 1]), ids[|ids| - 1])
  }

  /** The ordering list after `toggleFastestFingerQuestionSelection` on each id in turn. */
  function SelectEach(qs: seq<FastestFinger>, ids: seq<Id>): (r: seq<FastestFinger>)
    ensures |r| == |qs|
  {
    if ids == [] then qs else SelectOnly(SelectEach(qs, ids[..|ids| - 1]), ids[|ids| - 1])
  }

  lemma FlipEachSnoc(qs: seq<Regular>, ids: seq<Id>, x: Id)
    ensures FlipEach(qs, ids + [x]) == FlipSelected(FlipEach(qs, ids), x)
  {
    assert (ids + [x])[..|ids|] == ids;
  }

  lemma SelectEachSnoc(qs: seq<FastestFinger>, ids: seq<Id>, x: Id)
    ensures SelectEach(qs, ids + [x]) == SelectOnly(SelectEach(qs, ids), x)
  {
    assert (ids + [x])[..|ids|] == ids;
  }

  lemma RegularIdsWhereSnoc(qs: seq<Regular>, i: nat, sel: bool)
    requires i < |qs|
    ensures RegularIdsWhere(qs[..i + 1], sel) == RegularIdsWhere(qs[..i], sel) + (if qs[i].selected == sel then [qs[i].id] else [])
  {
    assert qs[..i + 1][..i] == qs[..i];
  }

  lemma FastestIdsWhereSnoc(qs: seq<FastestFinger>, i: nat, sel: bool)
    requires i < |qs|
    ensures FastestIdsWhere(qs[..i + 1], sel) == FastestIdsWhere(qs[..i], sel) + (if qs[i].selected == sel then [qs[i].id] else [])
  {
    assert qs[..i + 1][..i] == qs[..i];
  }

  /** `totalSelected` */
  function TotalSelected(regular: seq<Regular>, fastest: seq<FastestFinger>): nat {
    Count(regular, (q: Regular) => q.selected) + Count(fastest, (q: FastestFinger) => q.selected)
  }

  /** What the bar shows: nothing, or the number of selected questions. */
  function Shown(regular: seq<Regular>, fastest: seq<FastestFinger>): (r: Option<nat>)
    ensures r.None? <==> regular == [] && fastest == []
    ensures r.Some? ==> r.value == |SelectedRegular(regular)| + |SelectedFastest(fastest)|
  {
    if !(|regular| > 0 || |fastest| > 0) then None else Some(TotalSelected(regular, fastest))
  }

  /** `selectAll` */
  method SelectAll(store: QuestionStore)
    modifies store
    ensures store.regular == FlipEach(old(store.regular), RegularIdsWhere(old(store.regular), false))
    ensures store.fastest == SelectEach(old(store.fastest), FastestIdsWhere(old(store.fastest), false))
  {
    var regular := store.regular;
    var fastest := store.fastest;
    var i := 0;
    while i < |regular|
      invariant 0 <= i <= |regular|
      invariant store.regular == FlipEach(regular, RegularIdsWhere(regular[..i], false))
      invariant store.fastest == fastest
    {
      ghost var done := RegularIdsWhere(regular[..i], false);
      RegularIdsWhereSnoc(regular, i, false);
      if !regular[i].selected {
        FlipEachSnoc(regular, done, regular[i].id);
        store.ToggleRegular(regular[i].id);
      } else {
        assert done + [] == done;
      }
      i := i + 1;
    }
    assert regular[..i] == regular;
    i := 0;
    while i < |fastest|
      invariant 0 <= i <= |fastest|
      invariant store.regular == FlipEach(regular, RegularIdsWhere(regular, false))
      invariant store.fastest == SelectEach(fastest, FastestIdsWhere(fastest[..i], false))
    {
      ghost var done := FastestIdsWhere(fastest[..i], false);
      FastestIdsWhereSnoc(fastest, i, false);
      if !fastest[i].selected {
        SelectEachSnoc(fastest, done, fastest[i].id);
        store.ToggleFastest(fastest[i].id);
      } else {
        assert done + [] == done;
      }
      i := i + 1;
    }
    assert fastest[..i] == fastest;
  }

  /** `unselectAll` */
  method UnselectAll(store: QuestionStore)
    modifies store
    ensures store.regular == FlipEach(old(store.regular), RegularIdsWhere(old(store.regular), true))
    ensures store.fastest == SelectEach(old(store.fastest), FastestIdsWhere(old(store.fastest), true))
  {
    var regular := store.regular;
    var fastest := store.fastest;
    var i := 0;
    while i < |regular|
      invariant 0 <= i <= |regular|
      invariant store.regular == FlipEach(regular, RegularIdsWhere(regular[..i], true))
      invariant store.fastest == fastest
    {
      ghost var done := RegularIdsWhere(regular[..i], true);
      RegularIdsWhereSnoc(regular, i, true);
      if regular[i].selected {
        FlipEachSnoc(regular, done, regular[i].id);
        store.ToggleRegular(regular[i].id);
      } else {
        assert done + [] == done;
      }
      i := i + 1;
    }
    assert regular[..i] == regular;
    i := 0;
    while i < |fastest|
      invariant 0 <= i <= |fastest|
      invariant store.regular == FlipEach(regular, RegularIdsWhere(regular, true))
      invariant store.fastest == SelectEach(fastest, FastestIdsWhere(fastest[..i], true))
    {
      ghost var done := FastestIdsWhere(fastest[..i], true);
      FastestIdsWhereSnoc(fastest, i, true);
      if fastest[i].selected {
        SelectEachSnoc(fastest, done, fastest[i].id);
        store.ToggleFastest(fastest[i].id);
      } else {
        assert done + [] == done;
      }
      i := i + 1;
    }
    assert fastest[..i] == fastest;
  }

  // ----- regular list ---------------------------------------------------------------

  /** Each entry ends up flipped once per occurrence of its id; nothing else changes. */
  lemma {:induction false} FlipEachEntry(qs: seq<Regular>, ids: seq<Id>, j: nat)
    requires j < |qs|
    ensures FlipEach(qs, ids)[j].selected == (qs[j].selected != (Occurrences(ids, qs[j].id) % 2 == 1))
    ensures FlipEach(qs, ids)[j].(selected := qs[j].selected) == qs[j]
  {
    if ids != [] {
      var init := ids[..|ids| - 1];
      var prev := FlipEach(qs, init);
      FlipEachEntry(qs, init, j);
      OccurrencesSnoc(ids, qs[j].id);
      assert prev[j].id == qs[j].id;
      FlipAt(prev, ids[|ids| - 1], j);
      ParityStep(Occurrences(init, qs[j].id), ids[|ids| - 1] == qs[j].id);
    }
  }

  /** Adding one flips the parity; adding nothing keeps it. */
  lemma ParityStep(m: nat, b: bool)
    ensures ((m + (if b then 1 else 0)) % 2 == 1) == ((m % 2 == 1) != b)
  {
  }

  lemma FlipAt(qs: seq<Regular>, id: Id, j: nat)
    requires j < |qs|
    ensures FlipSelected(qs, id)[j] == if qs[j].id == id then qs[j].(selected := !qs[j].selected) else qs[j]
  {
  }

  lemma OccurrencesSnoc(ids: seq<Id>, x: Id)
    requires ids != []
    ensures Occurrences(ids, x) == Occurrences(ids[..|ids| - 1], x) + (if ids[|ids| - 1] == x then 1 else 0)
  {
    var init := ids[..|ids| - 1];
    assert ids == init + [ids[|ids| - 1]];
    CountAppend(init, [ids[|ids| - 1]], (y: Id) => y == x);
  }

  /** With unique ids, each entry's id is listed once if its flag is `sel` and not at all otherwise. */
  lemma {:induction false} OccurrencesOfRegularIds(qs: seq<Regular>, sel: bool, j: nat)
    requires UniqueRegularIds(qs) && j < |qs|
    ensures Occurrences(RegularIdsWhere(qs, sel), qs[j].id) == if qs[j].selected == sel then 1 else 0
  {
    var init := qs[..|qs| - 1];
    var last := qs[|qs| - 1];
    var tail := if last.selected == sel then [last.id] else [];
    CountAppend(RegularIdsWhere(init, sel), tail, (y: Id) => y == qs[j].id);
    if j < |qs| - 1 {
      OccurrencesOfRegularIds(init, sel, j);
      assert last.id != qs[j].id;
    } else {
      AbsentId(init, sel, last.id);
    }
  }

  /** An id no entry has is not listed. */
  lemma {:induction false} AbsentId(qs: seq<Regular>, sel: bool, x: Id)
    requires forall i :: 0 <= i < |qs| ==> qs[i].id != x
    ensures Occurrences(RegularIdsWhere(qs, sel), x) == 0
  {
    if qs != [] {
      var init := qs[..|qs| - 1];
      var last := qs[|qs| - 1];
      AbsentId(init, sel, x);
      CountAppend(RegularIdsWhere(init, sel), if last.selected == sel then [last.id] else [], (y: Id) => y == x);
    }
  }

  /** After "Select All", every regular question is selected (ids unique), nothing else changed. */
  lemma {:induction false} SelectAllSelectsEveryRegular(qs: seq<Regular>)
    requires UniqueRegularIds(qs)
    ensures forall j :: 0 <= j < |qs| ==> FlipEach(qs, RegularIdsWhere(qs, false))[j] == qs[j].(selected := true)
  {
    forall j | 0 <= j < |qs|
      ensures FlipEach(qs, RegularIdsWhere(qs, false))[j] == qs[j].(selected := true)
    {
      FlipEachEntry(qs, RegularIdsWhere(qs, false), j);
      OccurrencesOfRegularIds(qs, false, j);
    }
  }

  /** After "Unselect All", no regular question is selected (ids unique), nothing else changed. */
  lemma {:induction false} UnselectAllClearsEveryRegular(qs: seq<Regular>)
    requires UniqueRegularIds(qs)
    ensures forall j :: 0 <= j < |qs| ==> FlipEach(qs, RegularIdsWhere(qs, true))[j] == qs[j].(selected := false)
  {
    forall j | 0 <= j < |qs|
      ensures FlipEach(qs, RegularIdsWhere(qs, true))[j] == qs[j].(selected := false)
    {
      FlipEachEntry(qs, RegularIdsWhere(qs, true), j);
      OccurrencesOfRegularIds(qs, true, j);
    }
  }

  /** Two rendered entries sharing an unselected id cancel out: "Select All" leaves both unselected. */
  lemma DuplicateIdsDefeatSelectAll(q: Regular)
    requires !q.selected
    ensures FlipEach([q, q], RegularIdsWhere([q, q], false)) == [q, q]
  {
    var qs := [q, q];
    RegularIdsWhereSnoc(qs, 0, false);
    RegularIdsWhereSnoc(qs, 1, false);
    assert qs[..0] == [] && qs[..2] == qs;
    assert RegularIdsWhere(qs, false) == [q.id, q.id];
    FlipEachSnoc(qs, [], q.id);
    FlipEachSnoc(qs, [q.id], q.id);
    assert [] + [q.id] == [q.id] && [q.id] + [q.id] == [q.id, q.id];
    FlipSelectedInvolution(qs, q.id);
  }

  // ----- ordering list --------------------------------------------------------------

  /** A run of ordering toggles is the last one alone. */
  lemma {:induction false} SelectEachIsLast(qs: seq<FastestFinger>, ids: seq<Id>)
    ensures ids == [] ==> SelectEach(qs, ids) == qs
    ensures ids != [] ==> SelectEach(qs, ids) == SelectOnly(qs, ids[|ids| - 1])
  {
    if |ids| > 1 {
      SelectEachIsLast(qs, ids[..|ids| - 1]);
      SelectOnlyTwice(qs, ids[|ids| - 2], ids[|ids| - 1]);
      assert ids[..|ids| - 1][|ids| - 2] == ids[|ids| - 2];
    } else if |ids| == 1 {
      assert ids[..0] == [];
    }
  }

  /** The listed ids belong to entries with the flag `sel`, and there is one when some entry has it. */
  lemma {:induction false} FastestIdsWhereFacts(qs: seq<FastestFinger>, sel: bool)
    ensures FastestIdsWhere(qs, sel) != [] <==> exists i :: 0 <= i < |qs| && qs[i].selected == sel
    ensures FastestIdsWhere(qs, sel) != [] ==>
              exists i :: 0 <= i < |qs| && qs[i].selected == sel && qs[i].id == FastestIdsWhere(qs, sel)[|FastestIdsWhere(qs, sel)| - 1]
  {
    if qs != [] {
      var init := qs[..|qs| - 1];
      FastestIdsWhereFacts(init, sel);
      if exists i :: 0 <= i < |init| && init[i].selected == sel {
        var i :| 0 <= i < |init| && init[i].selected == sel;
        assert qs[i] == init[i];
      }
      if exists i :: 0 <= i < |qs| && qs[i].selected == sel {
        var i :| 0 <= i < |qs| && qs[i].selected == sel;
        if i < |init| { assert init[i] == qs[i]; }
      }
      if FastestIdsWhere(init, sel) != [] && qs[|qs| - 1].selected != sel {
        var i :| 0 <= i < |init| && init[i].selected == sel && init[i].id == FastestIdsWhere(init, sel)[|FastestIdsWhere(init, sel)| - 1];
        assert qs[i] == init[i];
      }
    }
  }

  /**
   * After "Select All", when some ordering question was unselected, exactly
   * the entries sharing the id of the last unselected one are selected; when
   * all were selected the list is unchanged.
   */
  lemma {:induction false} SelectAllFastest(qs: seq<FastestFinger>)
    ensures (forall i :: 0 <= i < |qs| ==> qs[i].selected) ==> SelectEach(qs, FastestIdsWhere(qs, false)) == qs
    ensures (exists i :: 0 <= i < |qs| && !qs[i].selected) ==>
              exists k :: 0 <= k < |qs| && !qs[k].selected && SelectEach(qs, FastestIdsWhere(qs, false)) == SelectOnly(qs, qs[k].id)
  {
    var ids := FastestIdsWhere(qs, false);
    FastestIdsWhereFacts(qs, false);
    SelectEachIsLast(qs, ids);
  }

  /** With unique ids at most one ordering question is selected after "Select All" when one was unselected. */
  lemma {:induction false} SelectAllFastestAtMostOne(qs: seq<FastestFinger>)
    requires UniqueFastestIds(qs)
    requires exists i :: 0 <= i < |qs| && !qs[i].selected
    ensures Count(SelectEach(qs, FastestIdsWhere(qs, false)), (q: FastestFinger) => q.selected) <= 1
  {
    SelectAllFastest(qs);
    var k :| 0 <= k < |qs| && !qs[k].selected && SelectEach(qs, FastestIdsWhere(qs, false)) == SelectOnly(qs, qs[k].id);
    SelectOnlyAtMostOne(qs, qs[k].id);
  }

  /**
   * "Unselect All" does not unselect the ordering list: the toggle it calls
   * on a selected entry selects that entry's id again, so when some ordering
   * question was selected, one still is afterwards.
   */
  lemma {:induction false} UnselectAllKeepsFastestSelected(qs: seq<FastestFinger>)
    requires exists i :: 0 <= i < |qs| && qs[i].selected
    ensures exists k :: 0 <= k < |qs| && qs[k].selected && SelectEach(qs, FastestIdsWhere(qs, true)) == SelectOnly(qs, qs[k].id)
    ensures exists k :: 0 <= k < |qs| && SelectEach(qs, FastestIdsWhere(qs, true))[k].selected
  {
    var ids := FastestIdsWhere(qs, true);
    FastestIdsWhereFacts(qs, true);
    SelectEachIsLast(qs, ids);
    var k :| 0 <= k < |qs| && qs[k].selected && qs[k].id == ids[|ids| - 1];
    SelectOnlyEntries(qs, qs[k].id);
    assert SelectEach(qs, ids)[k].selected;
  }
}
