/** `StatsPanel`: question totals, the category table and the difficulty counts. */
module StatsPanel {
  import opened Wrappers
  import opened Question
  import opened Seqs

  /** `totalQuestions` */
  function TotalQuestions(fastest: seq<FastestFinger>, regular: seq<Regular>): nat {
    |fastest| + |regular|
  }

  predicate NoDuplicates(xs: seq<string>) {
    forall i, j :: 0 <= i < |xs| && 0 <= j < |xs| && xs[i] == xs[j] ==> i == j
  }

  /** The category of some regular question. */
  predicate IsCategoryOf(regular: seq<Regular>, c: string) {
    exists i :: 0 <= i < |regular| && regular[i].category == c
  }

  /**
   * `[...new Set(regularQuestions.map(q => q.category).filter(Boolean))]`:
   * the non-empty categories, each once, in order of first appearance.
   */
  function Categories(regular: seq<Regular>): (cs: seq<string>)
    ensures NoDuplicates(cs)
    ensures forall c :: c in cs <==> c != "" && IsCategoryOf(regular, c)
  {
    if regular == [] then []
    else
      var init := regular[..|regular| - 1];
      var c := regular[|regular| - 1].category;
      var cs := Categories(init);
      assert forall x :: IsCategoryOf(init, x) ==> IsCategoryOf(regular, x) by {
        forall x | IsCategoryOf(init, x) ensures IsCategoryOf(regular, x) {
          var i :| 0 <= i < |init| && init[i].category == x;
          assert regular[i].category == x;
        }
      }
      assert forall x :: IsCategoryOf(regular, x) ==> IsCategoryOf(init, x) || x == c by {
        forall x | IsCategoryOf(regular, x) ensures IsCategoryOf(init, x) || x == c {
          var i :| 0 <= i < |regular| && regular[i].category == x;
          if i < |init| { assert init[i].category == x; }
        }
      }
      if c == "" || c in cs then cs else cs + [c]
  }

  /**
   * `new Set` keeps first appearances: one more question adds its category at
   * the end when it is non-empty and new, and changes nothing otherwise.
   */
  lemma CategoriesSnoc(init: seq<Regular>, q: Regular)
    ensures Categories(init + [q]) ==
      if q.category == "" || q.category in Categories(init) then Categories(init) else Categories(init) + [q.category]
  {
    assert (init + [q])[..|init|] == init;
  }

  /** `regularQuestions.filter(q => q.category === category).length` */
  function CategoryCount(regular: seq<Regular>, c: string): nat {
    Count(regular, (q: Regular) => q.category == c)
  }

  /**
   * `categoryStats`: one entry per category, in the order of `Categories`,
   * holding the number of regular questions filed under it, never 0.
   */
  function CategoryStats(regular: seq<Regular>): (r: seq<(string, nat)>)
    ensures |r| == |Categories(regular)|
    ensures forall i :: 0 <= i < |r| ==>
              && r[i].0 == Categories(regular)[i]
              && r[i].1 == |Filter(regular, (q: Regular) => q.category == r[i].0)|
              && r[i].1 >= 1
  {
    var cs := Categories(regular);
    var r := seq(|cs|, i requires 0 <= i < |cs| => (cs[i], CategoryCount(regular, cs[i])));
    forall i | 0 <= i < |r| ensures r[i].1 >= 1 {
      assert cs[i] in cs;
      assert IsCategoryOf(regular, cs[i]);
      var j :| 0 <= j < |regular| && regular[j].category == cs[i];
      assert regular[j] in Filter(regular, (q: Regular) => q.category == cs[i]);
    }
    r
  }

  /** The counts of a category table, added up. */
  function StatsTotal(r: seq<(string, nat)>): nat {
    if r == [] then 0 else StatsTotal(r[..|r| - 1]) + r[|r| - 1].1
  }

  /** The sum of the per-category counts over the listed categories. */
  function SumOfCounts(cs: seq<string>, regular: seq<Regular>): nat {
    if cs == [] then 0 else SumOfCounts(cs[..|cs| - 1], regular) + CategoryCount(regular, cs[|cs| - 1])
  }

  /** `allQuestions.filter(q => q.difficulty === d).length`, over both lists. */
  function DifficultyCount(fastest: seq<FastestFinger>, regular: seq<Regular>, d: int): nat {
    FastestDifficultyCount(fastest, d) + RegularDifficultyCount(regular, d)
  }

  function FastestDifficultyCount(fastest: seq<FastestFinger>, d: int): nat {
    Count(fastest, (q: FastestFinger) => q.difficulty == d)
  }

  /** `regularQuestions.filter(q => q.difficulty === d).length`; a missing difficulty never matches. */
  function RegularDifficultyCount(regular: seq<Regular>, d: int): nat {
    Count(regular, (q: Regular) => q.difficulty == Some(d))
  }

  // ----- lemmas -------------------------------------------------------------------

  /** Appending one question adds one to its own category's count and nothing to the others. */
  lemma {:induction false} SumOfCountsSnoc(cs: seq<string>, init: seq<Regular>, q: Regular)
    requires NoDuplicates(cs)
    ensures SumOfCounts(cs, init + [q]) == SumOfCounts(cs, init) + (if q.category in cs then 1 else 0)
  {
    if cs != [] {
      var front := cs[..|cs| - 1];
      var c := cs[|cs| - 1];
      assert NoDuplicates(front);
      SumOfCountsSnoc(front, init, q);
      CountAppend(init, [q], (x: Regular) => x.category == c);
      assert q.category in cs <==> q.category in front || q.category == c;
      assert q.category == c ==> q.category !in front;
    }
  }

  /** A question whose category no earlier question has is the only one counted under it. */
  lemma NewCategoryCount(init: seq<Regular>, q: Regular)
    requires !IsCategoryOf(init, q.category)
    ensures CategoryCount(init + [q], q.category) == 1
  {
    CountAppend(init, [q], (x: Regular) => x.category == q.category);
    FilterAllOrNone(init, (x: Regular) => x.category == q.category);
  }

  /** One more question adds one to the sum when its category is non-empty, and nothing otherwise. */
  lemma SumOfCountsStep(init: seq<Regular>, q: Regular)
    ensures SumOfCounts(Categories(init + [q]), init + [q])
            == SumOfCounts(Categories(init), init) + (if q.category != "" then 1 else 0)
  {
    var regular := init + [q];
    var c := q.category;
    var cs := Categories(init);
    assert regular[..|regular| - 1] == init;
    SumOfCountsSnoc(cs, init, q);
    if c != "" && c !in cs {
      assert Categories(regular) == cs + [c];
      assert (cs + [c])[..|cs|] == cs;
      NewCategoryCount(init, q);
    }
  }

  /**
   * The category counts add up to the number of regular questions that have a
   * non-empty category: every such question is counted once, under its own.
   */
  lemma {:induction false} CategoryCountsSum(regular: seq<Regular>)
    ensures SumOfCounts(Categories(regular), regular) == Count(regular, (q: Regular) => q.category != "")
    ensures StatsTotal(CategoryStats(regular)) == Count(regular, (q: Regular) => q.category != "")
  {
    CategoryCountsSumOfCounts(regular);
    StatsTotalIsSum(CategoryStats(regular), Categories(regular), regular);
  }

  /** A table whose entries count the listed categories adds up to their `SumOfCounts`. */
  lemma {:induction false} StatsTotalIsSum(r: seq<(string, nat)>, cs: seq<string>, regular: seq<Regular>)
    requires |r| == |cs|
    requires forall i :: 0 <= i < |r| ==> r[i].1 == CategoryCount(regular, cs[i])
    ensures StatsTotal(r) == SumOfCounts(cs, regular)
  {
    if r != [] {
      StatsTotalIsSum(r[..|r| - 1], cs[..|cs| - 1], regular);
    }
  }

  lemma {:induction false} CategoryCountsSumOfCounts(regular: seq<Regular>)
    ensures SumOfCounts(Categories(regular), regular) == Count(regular, (q: Regular) => q.category != "")
  {
    if regular != [] {
      var init := regular[..|regular| - 1];
      var q := regular[|regular| - 1];
      assert regular == init + [q];
      CategoryCountsSumOfCounts(init);
      SumOfCountsStep(init, q);
      CountAppend(init, [q], (x: Regular) => x.category != "");
    }
  }

  /** Ordering questions with difficulty 1, 2 or 3 are counted once, under their difficulty. */
  lemma {:induction false} FastestDifficultyPartition(fastest: seq<FastestFinger>)
    ensures FastestDifficultyCount(fastest, 1) + FastestDifficultyCount(fastest, 2) + FastestDifficultyCount(fastest, 3)
            == Count(fastest, (q: FastestFinger) => DeclaredDifficulty(q.difficulty))
  {
    if fastest != [] {
      FastestDifficultyPartition(fastest[..|fastest| - 1]);
    }
  }

  lemma {:induction false} RegularDifficultyPartition(regular: seq<Regular>)
    ensures RegularDifficultyCount(regular, 1) + RegularDifficultyCount(regular, 2) + RegularDifficultyCount(regular, 3)
            == Count(regular, (q: Regular) => DeclaredRegular(q))
  {
    if regular != [] {
      RegularDifficultyPartition(regular[..|regular| - 1]);
    }
  }

  /**
   * The easy, medium and hard counts together are the questions whose
   * difficulty is 1, 2 or 3, so they never exceed the total; a question with
   * difficulty 0 or none is counted in none of them.
   */
  lemma {:induction false} DifficultyCountsPartition(fastest: seq<FastestFinger>, regular: seq<Regular>)
    ensures DifficultyCount(fastest, regular, 1) + DifficultyCount(fastest, regular, 2) + DifficultyCount(fastest, regular, 3)
            == Count(fastest, (q: FastestFinger) => DeclaredDifficulty(q.difficulty)) + Count(regular, (q: Regular) => DeclaredRegular(q))
    ensures DifficultyCount(fastest, regular, 1) + DifficultyCount(fastest, regular, 2) + DifficultyCount(fastest, regular, 3)
            <= TotalQuestions(fastest, regular)
  {
    FastestDifficultyPartition(fastest);
    RegularDifficultyPartition(regular);
  }

  /** Questions as the imports make them (difficulty 0 or none) appear in no difficulty count. */
  lemma {:induction false} ImportedDifficultiesUncounted(fastest: seq<FastestFinger>, regular: seq<Regular>, d: int)
    requires forall i :: 0 <= i < |fastest| ==> fastest[i].difficulty == 0
    requires forall i :: 0 <= i < |regular| ==> regular[i].difficulty.None?
    requires d != 0
    ensures DifficultyCount(fastest, regular, d) == 0
  {
    FilterAllOrNone(fastest, (q: FastestFinger) => q.difficulty == d);
    FilterAllOrNone(regular, (q: Regular) => q.difficulty == Some(d));
  }

}
