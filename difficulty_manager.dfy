/**
 * The difficulty manager (core/difficulty_manager.py): turning a rubric
 * distribution into question counts, the difficulty summary of a salary
 * coefficient, and the role/coefficient validation.
 *
 * Python computes `round((percentage / 100) * total)` in floating point; here
 * the product is the exact rational `percentage * total / 100`, rounded half
 * to even as Python's `round` does.
 */
module DifficultyManager {
  import opened Text
  import opened Wrappers
  import opened Tables
  import opened RubricSystem
  import RolesConfig

  /** Python's `round` of the rational `num / den`: the nearest integer, ties to the even one. */
  function RoundHalfEven(num: int, den: int): (r: int)
    requires den > 0
    ensures -den <= 2 * (num - r * den) <= den
    ensures 2 * (num - r * den) == den || 2 * (num - r * den) == -den ==> r % 2 == 0
  {
    var q := num / den;
    var rem := num % den;
    if 2 * rem < den then q
    else if 2 * rem > den then q + 1
    else if q % 2 == 0 then q
    else q + 1
  }

  /** Each level's share of `total`, rounded: the first loop of `calculate_question_distribution`. */
  function Rounded(d: Distribution, total: int): (r: Distribution)
    ensures |r| == |d|
    ensures forall i :: 0 <= i < |d| ==> r[i] == (d[i].0, RoundHalfEven(d[i].1 * total, 100))
  {
    if |d| == 0 then []
    else Rounded(d[..|d| - 1], total) + [(d[|d| - 1].0, RoundHalfEven(d[|d| - 1].1 * total, 100))]
  }

  /** `max(distribution, key=distribution.get)`: the first entry with the largest value. */
  function FirstMaxIndex(d: Distribution): (r: nat)
    requires |d| > 0
    ensures r < |d|
    ensures forall j :: 0 <= j < |d| ==> d[j].1 <= d[r].1
    ensures forall j :: 0 <= j < r ==> d[j].1 < d[r].1
  {
    if |d| == 1 then 0
    else
      var m := FirstMaxIndex(d[..|d| - 1]);
      if d[|d| - 1].1 > d[m].1 then |d| - 1 else m
  }

  /**
   * `calculate_question_distribution`: the rounded shares, with the whole
   * rounding difference added to the first level of largest percentage.
   */
  function QuestionDistribution(total: int, coefficient: int): (r: Distribution)
  {
    var d := DistributionByMultiplier(coefficient);
    var rounded := Rounded(d, total);
    var difference := total - Total(rounded);
    var m := FirstMaxIndex(d);
    if difference != 0 then rounded[m := (rounded[m].0, rounded[m].1 + difference)] else rounded
  }

  /** The imperative form: fill the counts level by level, then correct the largest bucket. */
  method CalculateQuestionDistribution(total: int, coefficient: int) returns (counts: Distribution)
    ensures counts == QuestionDistribution(total, coefficient)
    ensures Codes(counts) == LevelKeys
    ensures Total(counts) == total
  {
    var d := DistributionByMultiplier(coefficient);
    counts := [];
    var i := 0;
    while i < |d|
      invariant 0 <= i <= |d|
      invariant counts == Rounded(d[..i], total)
    {
      assert d[..i + 1][..i] == d[..i];
      counts := counts + [(d[i].0, RoundHalfEven(d[i].1 * total, 100))];
      i := i + 1;
    }
    assert d[..|d|] == d;
    var difference := total - Total(counts);
    if difference != 0 {
      var m := FirstMaxIndex(d);
      counts := counts[m := (counts[m].0, counts[m].1 + difference)];
    }
    DistributionSumsToTotal(total, coefficient);
  }

  /** Changing one value changes the sum by the same amount. */
  lemma {:induction false} TotalUpdate(s: Distribution, i: nat, v: int)
    requires i < |s|
    ensures Total(s[i := (s[i].0, v)]) == Total(s) - s[i].1 + v
    decreases |s|
  {
    var t := s[i := (s[i].0, v)];
    assert t[..|t| - 1] == if i < |s| - 1 then s[..|s| - 1][i := (s[i].0, v)] else s[..|s| - 1];
    if i < |s| - 1 {
      TotalUpdate(s[..|s| - 1], i, v);
    }
  }

  /** Rounding keeps the level keys. */
  lemma RoundedKeys(d: Distribution, total: int)
    ensures Codes(Rounded(d, total)) == Codes(d)
  {
  }

  /** The counts carry exactly the five level keys and add up to the requested total. */
  lemma DistributionSumsToTotal(total: int, coefficient: int)
    ensures Codes(QuestionDistribution(total, coefficient)) == LevelKeys
    ensures Total(QuestionDistribution(total, coefficient)) == total
  {
    var d := DistributionByMultiplier(coefficient);
    var rounded := Rounded(d, total);
    RoundedKeys(d, total);
    var m := FirstMaxIndex(d);
    var difference := total - Total(rounded);
    if difference != 0 {
      TotalUpdate(rounded, m, rounded[m].1 + difference);
    }
  }

  /**
   * Every level but the first one of largest percentage keeps its rounded
   * share; that one absorbs the whole difference.
   */
  lemma DifferenceGoesToFirstMax(total: int, coefficient: int, i: int)
    requires 0 <= i < |LevelKeys|
    ensures var d := DistributionByMultiplier(coefficient);
            var r := QuestionDistribution(total, coefficient);
            var m := FirstMaxIndex(d);
            (i != m ==> r[i].1 == RoundHalfEven(d[i].1 * total, 100))
            && (i == m ==> r[i].1 == RoundHalfEven(d[i].1 * total, 100) + (total - Total(Rounded(d, total))))
  {
  }

  /** Summed rounding errors: each share is off by at most half a question. */
  lemma {:induction false} RoundingErrorBound(d: Distribution, total: int)
    ensures -50 * |d| <= 100 * Total(Rounded(d, total)) - total * Total(d) <= 50 * |d|
    decreases |d|
  {
    if |d| > 0 {
      var init := d[..|d| - 1];
      RoundingErrorBound(init, total);
      var r := Rounded(d, total);
      assert r[..|r| - 1] == Rounded(init, total);
      var last := d[|d| - 1].1;
      var q := RoundHalfEven(last * total, 100);
      var a := Total(Rounded(init, total));
      var b := Total(init);
      assert Total(r) == a + q;
      assert Total(d) == b + last;
      Distribute(total, b, last);
      assert -100 <= 2 * (last * total - q * 100) <= 100;
    }
  }

  lemma Distribute(t: int, b: int, l: int)
    ensures t * (b + l) == t * b + l * t
  {
  }

  /** For the rubric tiers the rounding difference is at most two questions either way. */
  lemma RoundingDifferenceSmall(total: int, coefficient: int)
    ensures -2 <= total - Total(Rounded(DistributionByMultiplier(coefficient), total)) <= 2
  {
    var d := DistributionByMultiplier(coefficient);
    DistributionIsPercentages(coefficient);
    RoundingErrorBound(d, total);
  }

  /** `get_difficulty_info`'s result. */
  datatype DifficultyInfo = DifficultyInfo(
    salaryCoefficient: int,
    difficultyLabel: DifficultyLabel,
    distribution: Distribution,
    primaryFocus: Option<string>,
    totalPercentage: int)

  /**
   * `_get_primary_focus`: the rubric name of the first level of largest share.
   * `None` stands for the `ValueError` of an empty distribution and the
   * `KeyError` of a key outside the rubric.
   */
  function PrimaryFocus(d: Distribution): (r: Option<string>)
    ensures r.Some? <==> |d| > 0 && d[FirstMaxIndex(d)].0 in LevelKeys
  {
    if |d| == 0 then None
    else match RubricLevelOf(d[FirstMaxIndex(d)].0)
      case None => None
      case Some(level) => Some(level.name)
  }

  /** The coefficient's label, or the `Expert` default of an untabulated one. */
  function LabelOrDefault(coefficient: int): (r: DifficultyLabel)
    ensures r.tag == IntToString(coefficient) + "x"
  {
    match DifficultyLabelOf(coefficient)
    case Some(entry) =>
      LabelsNameTheirCoefficient(coefficient);
      entry
    case None => DifficultyLabel("Expert", IntToString(coefficient) + "x", "Uzman seviye")
  }

  /** `get_difficulty_info`. */
  function GetDifficultyInfo(coefficient: int): (r: DifficultyInfo)
    ensures r.totalPercentage == 100
    ensures r.difficultyLabel.tag == IntToString(coefficient) + "x"
    ensures r.primaryFocus.Some?
    ensures r.distribution == DistributionByMultiplier(coefficient)
  {
    var d := DistributionByMultiplier(coefficient);
    DistributionIsPercentages(coefficient);
    assert d[FirstMaxIndex(d)].0 == LevelKeys[FirstMaxIndex(d)];
    DifficultyInfo(coefficient, LabelOrDefault(coefficient), d, PrimaryFocus(d), Total(d))
  }

  /** The focus of each tier: basics at 2x, troubleshooting at 3x, design at 4x, strategy from 5x. */
  lemma PrimaryFocusByTier(coefficient: int)
    ensures var focus := GetDifficultyInfo(coefficient).primaryFocus.value;
            (coefficient <= 2 ==> focus == RubricLevels[0].1.name)
            && (coefficient == 3 ==> focus == RubricLevels[2].1.name)
            && (coefficient == 4 ==> focus == RubricLevels[3].1.name)
            && (coefficient >= 5 ==> focus == RubricLevels[4].1.name)
  {
    var d := DistributionByMultiplier(coefficient);
    var m := FirstMaxIndex(d);
    assert d[m].0 == LevelKeys[m];
    if coefficient <= 2 {
      assert m == 0;
    } else if coefficient == 3 {
      assert d[2].1 == 35;
      assert m == 2;
    } else if coefficient == 4 {
      assert d[3].1 == 35;
      assert m == 3;
    } else {
      assert d[4].1 == 35;
      assert m == 4;
    }
    LevelNames(m);
  }

  /** The rubric table entry of a level key is found. */
  lemma LevelNames(i: int)
    requires 0 <= i < |LevelKeys|
    ensures RubricLevelOf(LevelKeys[i]) == Some(RubricLevels[i].1)
  {
    assert Codes(RubricLevels) == LevelKeys;
    LevelKeysDistinct();
    LookupFindsEntry(RubricLevels, i);
  }

  lemma LevelKeysDistinct()
    ensures forall i, j :: 0 <= i < j < |RubricLevels| ==> RubricLevels[i].0 != RubricLevels[j].0
  {
  }

  /** `validate_difficulty_requirements`'s result. */
  datatype Validation =
    | Valid(difficultyInfo: DifficultyInfo, message: string)
    | Invalid(error: string, message: string)

  /**
   * `validate_difficulty_requirements`. Its `except` branch is unreachable in
   * the model: `validate_role_config` itself turns an unknown role into false.
   */
  function ValidateDifficultyRequirements(roleCode: string, coefficient: int): (r: Validation)
    ensures r.Valid? <==> RolesConfig.ValidateRoleConfig(roleCode, coefficient)
    ensures r.Valid? ==> r.difficultyInfo == GetDifficultyInfo(coefficient)
    ensures r.Invalid? ==> r.message == "Bu rol için belirtilen maaş katsayısı desteklenmiyor"
  {
    var combination := roleCode + " - " + IntToString(coefficient) + "x";
    if RolesConfig.ValidateRoleConfig(roleCode, coefficient) then
      Valid(GetDifficultyInfo(coefficient), "Geçerli kombinasyon: " + combination)
    else
      Invalid("Geçersiz kombinasyon: " + combination, "Bu rol için belirtilen maaş katsayısı desteklenmiyor")
  }

  /** `get_all_difficulty_levels`: the summary of every tabulated coefficient, in ascending order. */
  method GetAllDifficultyLevels() returns (levels: seq<DifficultyInfo>)
    ensures |levels| == 4
    ensures forall i :: 0 <= i < 4 ==> levels[i] == GetDifficultyInfo(i + 2)
    ensures forall i :: 0 <= i < 4 ==> DifficultyLabelOf(levels[i].salaryCoefficient).Some?
  {
    levels := [];
    var coefficient := 2;
    while coefficient <= 5
      invariant 2 <= coefficient <= 6
      invariant |levels| == coefficient - 2
      invariant forall i :: 0 <= i < |levels| ==> levels[i] == GetDifficultyInfo(i + 2)
    {
      levels := levels + [GetDifficultyInfo(coefficient)];
      coefficient := coefficient + 1;
    }
  }
}
