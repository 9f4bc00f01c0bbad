/**
 * The single-role generator's arithmetic and gating
 * (generators/single_generator.py): the validation that precedes any
 * generation, the balanced split of a question total over the active
 * categories, and the totals of the generation preview.
 *
 * The generation itself (a model request) is not part of this model: a
 * request that passes the gate is represented by the role name and
 * difficulty summary it proceeds with.
 */
module SingleGenerator {
  import opened Text
  import opened Wrappers
  import opened Tables
  import RolesConfig
  import QuestionCategories
  import DifficultyManager

  /** How `generate_questions` leaves its validation step. */
  datatype Gate =
    | Rejected(error: string, message: string)
    | Proceeds(roleName: string, difficultyInfo: DifficultyManager.DifficultyInfo)

  /**
   * The start of `generate_questions`: an invalid role/coefficient pair is
   * answered with the validation error and message before anything is
   * generated; a valid one proceeds with the role's name.
   */
  function GenerateQuestionsGate(roleCode: string, coefficient: int): (r: Gate)
    ensures r.Rejected? <==> !RolesConfig.ValidateRoleConfig(roleCode, coefficient)
    ensures r.Rejected? ==> r.message == "Bu rol için belirtilen maaş katsayısı desteklenmiyor"
    ensures r.Proceeds? ==> RolesConfig.GetRoleConfig(roleCode).Some?
                            && r.roleName == RolesConfig.GetRoleConfig(roleCode).value.name
                            && r.difficultyInfo == DifficultyManager.GetDifficultyInfo(coefficient)
  {
    match DifficultyManager.ValidateDifficultyRequirements(roleCode, coefficient)
    case Invalid(error, message) => Rejected(error, message)
    case Valid(info, _) => Proceeds(RolesConfig.GetRoleConfig(roleCode).value.name, info)
  }

  /** How `generate_balanced_questions` ends. */
  datatype Balanced =
    | Failed(error: string)
    | Generated(counts: seq<(string, int)>, gate: Gate)

  const NoActiveCategory: string := "Aktif kategori bulunamadı"

  /** The equal share of every category, the first `total % n` getting one more. */
  function BalancedCounts(active: seq<QuestionCategories.CategoryEntry>, total: int): (r: seq<(string, int)>)
    requires |active| > 0
    ensures |r| == |active|
  {
    seq(|active|, i requires 0 <= i < |active| =>
      (active[i].code, total / |active| + (if i < total % |active| then 1 else 0)))
  }

  function CountSum(counts: seq<(string, int)>): int
  {
    if |counts| == 0 then 0 else CountSum(counts[..|counts| - 1]) + counts[|counts| - 1].1
  }

  /**
   * The loop of `generate_balanced_questions`, with each category unpacked as
   * the (code, name, description) triple it is.
   */
  method BalancedSplit(active: seq<QuestionCategories.CategoryEntry>, total: int) returns (counts: seq<(string, int)>)
    requires |active| > 0
    ensures counts == BalancedCounts(active, total)
    ensures CountSum(counts) == total
  {
    var n := |active|;
    var base := total / n;
    var remaining := total % n;
    counts := [];
    var i := 0;
    while i < n
      invariant 0 <= i <= n
      invariant counts == BalancedCounts(active, total)[..i]
    {
      QuestionCategories.CategoryTuplesAreTriples(active[i]);
      var (code, _, _) := QuestionCategories.UnpackTriple(QuestionCategories.AsTuple(active[i])).value;
      var extra := if i < remaining then 1 else 0;
      counts := counts + [(code, base + extra)];
      i := i + 1;
    }
    BalancedCountsSum(active, total);
  }

  /** The first `k` shares add up to `k` times the base plus the extras among them. */
  lemma {:induction false} BalancedPrefixSum(active: seq<QuestionCategories.CategoryEntry>, total: int, k: nat)
    requires |active| > 0 && k <= |active|
    ensures CountSum(BalancedCounts(active, total)[..k])
            == k * (total / |active|) + (if k < total % |active| then k else total % |active|)
  {
    var r := BalancedCounts(active, total);
    if k > 0 {
      var base, remaining := total / |active|, total % |active|;
      assert r[..k][..k - 1] == r[..k - 1];
      BalancedPrefixSum(active, total, k - 1);
      assert CountSum(r[..k]) == CountSum(r[..k - 1]) + r[k - 1].1;
      assert r[k - 1].1 == base + (if k - 1 < remaining then 1 else 0);
      assert (k - 1) * base + base == k * base;
    }
  }

  /** The balanced shares hand out exactly the total. */
  lemma BalancedCountsSum(active: seq<QuestionCategories.CategoryEntry>, total: int)
    requires |active| > 0
    ensures CountSum(BalancedCounts(active, total)) == total
  {
    var r := BalancedCounts(active, total);
    BalancedPrefixSum(active, total, |active|);
    assert r[..|active|] == r;
  }

  /** Shares differ by at most one, and the larger ones come first. */
  lemma BalancedCountsAreEven(active: seq<QuestionCategories.CategoryEntry>, total: int, i: int, j: int)
    requires |active| > 0 && 0 <= i < j < |active|
    ensures var r := BalancedCounts(active, total);
            r[j].1 <= r[i].1 <= r[j].1 + 1
            && (r[i].1 == total / |active| + 1 <==> i < total % |active|)
  {
  }

  /**
   * `generate_balanced_questions` as written: the loop unpacks each category
   * triple into two names, so on any non-empty category list the first
   * iteration raises and the method returns the error instead of generating.
   */
  function GenerateBalancedAsWritten(active: seq<QuestionCategories.CategoryEntry>, roleCode: string,
                                     coefficient: int, total: int): (r: Balanced)
  {
    if |active| == 0 then Failed(NoActiveCategory)
    else match QuestionCategories.UnpackPair(QuestionCategories.AsTuple(active[0]))
      case None => Failed(QuestionCategories.PairUnpackError)
      case Some(_) => Generated(BalancedCounts(active, total), GenerateQuestionsGate(roleCode, coefficient))
  }

  /** As written, the balanced generation never reaches the generator. */
  lemma BalancedAsWrittenAlwaysFails(roleCode: string, coefficient: int, total: int)
    ensures GenerateBalancedAsWritten(QuestionCategories.GetActiveQuestionCategories(), roleCode, coefficient, total)
            == Failed(QuestionCategories.PairUnpackError)
  {
    QuestionCategories.ActiveCategoriesInTableOrder();
    var active := QuestionCategories.GetActiveQuestionCategories();
    QuestionCategories.CategoryTuplesAreTriples(active[0]);
  }

  /**
   * `generate_balanced_questions` with the triple unpacked as a triple: no
   * active category is an error; otherwise the balanced shares go to the
   * gated generation.
   */
  function GenerateBalanced(active: seq<QuestionCategories.CategoryEntry>, roleCode: string,
                            coefficient: int, total: int): (r: Balanced)
    ensures r.Failed? <==> |active| == 0
    ensures r.Failed? ==> r.error == NoActiveCategory
    ensures r.Generated? ==> |r.counts| == |active| && CountSum(r.counts) == total
                             && (r.gate.Rejected? <==> !RolesConfig.ValidateRoleConfig(roleCode, coefficient))
  {
    if |active| == 0 then Failed(NoActiveCategory)
    else
      BalancedCountsSum(active, total);
      Generated(BalancedCounts(active, total), GenerateQuestionsGate(roleCode, coefficient))
  }

  /** Over three categories, a total of 10 is split 4, 3, 3. */
  lemma BalancedTenOverThree(active: seq<QuestionCategories.CategoryEntry>)
    requires |active| == 3
    ensures var r := BalancedCounts(active, 10);
            r[0].1 == 4 && r[1].1 == 3 && r[2].1 == 3
  {
  }

  /** A category line of the preview. */
  datatype CategoryDetail = CategoryDetail(code: string, name: string, description: string, questionCount: int)

  /**
   * The lookup the preview consults for a category's name and description:
   * `get_category_config`, which is `Lookup` over the category table.
   */
  type CategoryLookup = string -> Option<QuestionCategories.CategoryConfig>

  /** The preview line of one requested entry: one for a positive count of a known category, none otherwise. */
  function EntryDetails(config: CategoryLookup, entry: (string, int)): (r: seq<CategoryDetail>)
    ensures |r| <= 1
    ensures |r| == 1 ==> r[0].questionCount > 0 && config(r[0].code).Some?
  {
    var (code, n) := entry;
    if n > 0 then
      match config(code)
      case Some(cfg) => [CategoryDetail(code, cfg.name, cfg.description, n)]
      case None => []
    else []
  }

  /** The lines of the preview: positive counts of known categories, in request order. */
  function PreviewDetails(config: CategoryLookup, counts: seq<(string, int)>): (r: seq<CategoryDetail>)
    ensures |r| <= |counts|
  {
    if |counts| == 0 then []
    else PreviewDetails(config, counts[..|counts| - 1]) + EntryDetails(config, counts[|counts| - 1])
  }

  /** Only positive counts of known categories are listed. */
  lemma {:induction false} PreviewListsKnownPositive(config: CategoryLookup, counts: seq<(string, int)>)
    ensures forall i :: 0 <= i < |PreviewDetails(config, counts)| ==>
              PreviewDetails(config, counts)[i].questionCount > 0
              && config(PreviewDetails(config, counts)[i].code).Some?
  {
    if |counts| > 0 {
      PreviewListsKnownPositive(config, counts[..|counts| - 1]);
    }
  }

  lemma PreviewDetailsStep(config: CategoryLookup, counts: seq<(string, int)>, i: nat)
    requires i < |counts|
    ensures PreviewDetails(config, counts[..i + 1]) == PreviewDetails(config, counts[..i]) + EntryDetails(config, counts[i])
  {
    assert counts[..i + 1][..i] == counts[..i];
  }

  function DetailTotal(details: seq<CategoryDetail>): int
  {
    if |details| == 0 then 0 else DetailTotal(details[..|details| - 1]) + details[|details| - 1].questionCount
  }

  lemma DetailTotalAppend(details: seq<CategoryDetail>, extra: seq<CategoryDetail>)
    requires |extra| <= 1
    ensures DetailTotal(details + extra) == DetailTotal(details) + (if |extra| == 1 then extra[0].questionCount else 0)
  {
    if |extra| == 1 {
      assert (details + extra)[..|details|] == details;
    } else {
      assert details + extra == details;
    }
  }

  /** The body of the preview loop: the entry's line, when its count is positive and its category known, and the count it adds. */
  method PreviewEntry(config: CategoryLookup, entry: (string, int)) returns (extra: seq<CategoryDetail>, added: int)
    ensures extra == EntryDetails(config, entry)
    ensures added == if |extra| == 1 then extra[0].questionCount else 0
  {
    var (code, n) := entry;
    extra := [];
    added := 0;
    if n > 0 {
      var cfg := config(code);
      if cfg.Some? {
        extra := [CategoryDetail(code, cfg.value.name, cfg.value.description, n)];
        added := n;
      }
    }
  }

  /** One pass of the preview loop extends the listed details and their total by the entry's line. */
  lemma CollectStep(config: CategoryLookup, counts: seq<(string, int)>, i: nat, details: seq<CategoryDetail>,
                    extra: seq<CategoryDetail>, added: int)
    requires i < |counts| && details == PreviewDetails(config, counts[..i])
    requires extra == EntryDetails(config, counts[i])
    requires added == if |extra| == 1 then extra[0].questionCount else 0
    ensures details + extra == PreviewDetails(config, counts[..i + 1])
    ensures DetailTotal(details + extra) == DetailTotal(details) + added
  {
    PreviewDetailsStep(config, counts, i);
    DetailTotalAppend(details, extra);
  }

  /** The preview's answer. */
  datatype Preview =
    | PreviewInvalid(error: string)
    | PreviewPlan(roleCode: string, roleName: string, difficulty: DifficultyManager.DifficultyInfo,
                  categories: seq<CategoryDetail>, totalQuestions: int, estimatedApiCalls: int)

  /** The loop of `preview_generation_plan`: the known categories with a positive count, and their total. */
  method CollectDetails(config: CategoryLookup, counts: seq<(string, int)>) returns (details: seq<CategoryDetail>, total: int)
    ensures details == PreviewDetails(config, counts)
    ensures total == DetailTotal(details)
  {
    details := [];
    total := 0;
    var i := 0;
    while i < |counts|
      invariant 0 <= i <= |counts|
      invariant details == PreviewDetails(config, counts[..i])
      invariant total == DetailTotal(details)
    {
      var extra, added := PreviewEntry(config, counts[i]);
      CollectStep(config, counts, i, details, extra, added);
      details := details + extra;
      total := total + added;
      i := i + 1;
    }
    assert counts[..|counts|] == counts;
  }

  /**
   * `preview_generation_plan`: after the same validation, the known
   * categories with a positive count are listed and their counts added up;
   * an unknown code is skipped.
   */
  method PreviewGenerationPlan(roleCode: string, coefficient: int, counts: seq<(string, int)>) returns (r: Preview)
    ensures r.PreviewInvalid? <==> !RolesConfig.ValidateRoleConfig(roleCode, coefficient)
    ensures r.PreviewPlan? ==> r.categories == PreviewDetails(QuestionCategories.GetCategoryConfig, counts)
                               && r.totalQuestions == DetailTotal(r.categories)
                               && r.estimatedApiCalls == r.totalQuestions
  {
    var gate := GenerateQuestionsGate(roleCode, coefficient);
    if gate.Rejected? {
      return PreviewInvalid(gate.error);
    }
    var details, total := CollectDetails(QuestionCategories.GetCategoryConfig, counts);
    r := PreviewPlan(roleCode, gate.roleName, gate.difficultyInfo, details, total, total);
  }

  /** The positive counts of known categories: the preview's total, stated over the request. */
  function KnownPositiveSum(config: CategoryLookup, counts: seq<(string, int)>): int
  {
    if |counts| == 0 then 0
    else
      var (code, n) := counts[|counts| - 1];
      KnownPositiveSum(config, counts[..|counts| - 1])
      + (if n > 0 && config(code).Some? then n else 0)
  }

  /**
   * The preview's total counts exactly the positive requests for known
   * categories: it is never negative, and it is at most the sum of all
   * positive requests.
   */
  lemma {:induction false} PreviewTotalCountsKnownPositive(config: CategoryLookup, counts: seq<(string, int)>)
    ensures DetailTotal(PreviewDetails(config, counts)) == KnownPositiveSum(config, counts)
    ensures 0 <= KnownPositiveSum(config, counts)
  {
    if |counts| > 0 {
      var init := counts[..|counts| - 1];
      PreviewTotalCountsKnownPositive(config, init);
      DetailTotalAppend(PreviewDetails(config, init), EntryDetails(config, counts[|counts| - 1]));
    }
  }
}
