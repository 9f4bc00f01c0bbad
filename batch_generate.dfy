/**
 * The planning arithmetic of the interactive batch script (batch_generate.py):
 * the 1:2:2 split of a question count over the three categories, and the
 * totals the plan display adds up.
 */
module BatchGenerate {
  import opened Tables

  const CategoryOrder: seq<string> := ["professional_experience", "theoretical_knowledge", "practical_application"]

  /** Plain sum of the counts of a category split. */
  function SplitSum(counts: seq<(string, int)>): int
  {
    if |counts| == 0 then 0 else SplitSum(counts[..|counts| - 1]) + counts[|counts| - 1].1
  }

  function B2I(b: bool): int { if b then 1 else 0 }

  /**
   * The 1:2:2 split in closed form: `total // 5` units, weighted 1, 2, 2, plus
   * the leftover units, of which theoretical takes the first and fourth,
   * practical the second and professional the third.
   */
  function ThreeWaySplit(total: int): (r: seq<(string, int)>)
    ensures Codes(r) == CategoryOrder
  {
    var unit := total / 5;
    var rest := total % 5;
    [(CategoryOrder[0], unit + B2I(rest >= 3)),
     (CategoryOrder[1], 2 * unit + B2I(rest >= 1) + B2I(rest >= 4)),
     (CategoryOrder[2], 2 * unit + B2I(rest >= 2))]
  }

  /** `calculate_question_distribution`: the base split, then the leftovers one by one. */
  method CalculateQuestionDistribution(total: int) returns (counts: seq<(string, int)>)
    ensures counts == ThreeWaySplit(total)
  {
    var unit := total / 5;
    var remainder := total % 5;
    var professional := unit;
    var theoretical := unit * 2;
    var practical := unit * 2;
    if remainder >= 1 {
      theoretical := theoretical + 1;
      remainder := remainder - 1;
    }
    if remainder >= 1 {
      practical := practical + 1;
      remainder := remainder - 1;
    }
    if remainder >= 1 {
      professional := professional + 1;
      remainder := remainder - 1;
    }
    if remainder >= 1 {
      theoretical := theoretical + 1;
      remainder := remainder - 1;
    }
    // The source's fifth leftover step (to practical) never fires: a remainder mod 5 is used up by now.
    assert remainder == 0;
    counts := [(CategoryOrder[0], professional), (CategoryOrder[1], theoretical), (CategoryOrder[2], practical)];
  }

  lemma ThreeWaySum(counts: seq<(string, int)>)
    requires |counts| == 3
    ensures SplitSum(counts) == counts[0].1 + counts[1].1 + counts[2].1
  {
    assert SplitSum(counts[..1]) == counts[0].1 by { assert counts[..1][..0] == []; }
    assert SplitSum(counts[..2]) == counts[0].1 + counts[1].1 by { assert counts[..2][..1] == counts[..1]; }
    assert counts[..3][..2] == counts[..2];
    assert counts[..3] == counts;
  }

  /** The split hands out exactly the requested number of questions. */
  lemma SplitSumsToTotal(total: int)
    ensures SplitSum(ThreeWaySplit(total)) == total
  {
    ThreeWaySum(ThreeWaySplit(total));
  }

  /**
   * The split keeps the 1:2:2 ratio up to the leftovers: theoretical and
   * practical differ by at most one in theoretical's favour, and professional
   * is within two units of half of theoretical's share.
   */
  lemma SplitKeepsRatio(total: int)
    ensures var r := ThreeWaySplit(total);
            r[2].1 <= r[1].1 <= r[2].1 + 1
            && 2 * r[0].1 - 2 <= r[1].1 <= 2 * r[0].1 + 2
            && r[0].1 == total / 5 + B2I(total % 5 >= 3)
  {
  }

  /** The worked examples: 15, 20 and 100 questions. */
  lemma SplitExamples()
    ensures ThreeWaySplit(15) == [(CategoryOrder[0], 3), (CategoryOrder[1], 6), (CategoryOrder[2], 6)]
    ensures ThreeWaySplit(20) == [(CategoryOrder[0], 4), (CategoryOrder[1], 8), (CategoryOrder[2], 8)]
    ensures ThreeWaySplit(100) == [(CategoryOrder[0], 20), (CategoryOrder[1], 40), (CategoryOrder[2], 40)]
  {
  }

  /** A generation plan: for each role, (coefficient, question count) pairs in insertion order. */
  type Plan = seq<(string, seq<(int, int)>)>

  /** The questions of all entries of a plan. */
  function PlanQuestions(plan: Plan): int
  {
    if |plan| == 0 then 0 else PlanQuestions(plan[..|plan| - 1]) + SplitCounts(plan[|plan| - 1].1)
  }

  function SplitCounts(levels: seq<(int, int)>): int
  {
    if |levels| == 0 then 0 else SplitCounts(levels[..|levels| - 1]) + levels[|levels| - 1].1
  }

  /** The number of (role, coefficient) entries of a plan. */
  function PlanEntries(plan: Plan): (r: nat)
    ensures |plan| > 0 ==> r >= |plan[|plan| - 1].1|
  {
    if |plan| == 0 then 0 else PlanEntries(plan[..|plan| - 1]) + |plan[|plan| - 1].1|
  }

  /** Counting the entries of two plans joined is counting each and adding. */
  lemma {:induction false} PlanEntriesAppend(a: Plan, b: Plan)
    ensures PlanEntries(a + b) == PlanEntries(a) + PlanEntries(b)
    decreases |b|
  {
    if |b| > 0 {
      var n := |b| - 1;
      assert (a + b)[..|a + b| - 1] == a + b[..n];
      PlanEntriesAppend(a, b[..n]);
    } else {
      assert a + b == a;
    }
  }

  /** What the plan display reports: whether there is a plan, and its question and request totals. */
  datatype PlanTotals = PlanTotals(shown: bool, totalQuestions: int, totalApiCalls: int)

  /**
   * `display_plan`: false on an empty plan; otherwise the count of every
   * entry is summed and every entry costs three requests, one per category.
   */
  method DisplayPlan(plan: Plan) returns (r: PlanTotals)
    ensures r.shown <==> |plan| > 0
    ensures r.shown ==> r.totalQuestions == PlanQuestions(plan) && r.totalApiCalls == 3 * PlanEntries(plan)
  {
    if |plan| == 0 {
      return PlanTotals(false, 0, 0);
    }
    var totalQuestions := 0;
    var totalApiCalls := 0;
    var i := 0;
    while i < |plan|
      invariant 0 <= i <= |plan|
      invariant totalQuestions == PlanQuestions(plan[..i])
      invariant totalApiCalls == 3 * PlanEntries(plan[..i])
    {
      var levels := plan[i].1;
      var j := 0;
      while j < |levels|
        invariant 0 <= j <= |levels|
        invariant totalQuestions == PlanQuestions(plan[..i]) + SplitCounts(levels[..j])
        invariant totalApiCalls == 3 * (PlanEntries(plan[..i]) + j)
      {
        assert levels[..j + 1][..j] == levels[..j];
        totalQuestions := totalQuestions + levels[j].1;
        totalApiCalls := totalApiCalls + 3;
        j := j + 1;
      }
      assert levels[..j] == levels;
      assert plan[..i + 1][..i] == plan[..i];
      i := i + 1;
    }
    assert plan[..i] == plan;
    r := PlanTotals(true, totalQuestions, totalApiCalls);
  }

  /** Totals over two plans listed one after the other add up. */
  lemma {:induction false} PlanTotalsAppend(p: Plan, q: Plan)
    ensures PlanQuestions(p + q) == PlanQuestions(p) + PlanQuestions(q)
    ensures PlanEntries(p + q) == PlanEntries(p) + PlanEntries(q)
    decreases |q|
  {
    if |q| == 0 {
      assert p + q == p;
    } else {
      assert (p + q)[..|p + q| - 1] == p + q[..|q| - 1];
      PlanTotalsAppend(p, q[..|q| - 1]);
    }
  }
}
